/** Replaying the serializer's output, row by row, on a fresh terminal. */
module Replay {
  import opened Wrappers
  import opened Sgr
  import opened Screen
  import opened Snapshot

  // ----- a terminal that has only been written downwards

  function BlankRows(g: Geometry, n: nat): (r: seq<Row>)
    ensures |r| == n && forall i :: 0 <= i < n ==> r[i] == Filled(g, BLANK)
  {
    seq(n, _ => Filled(g, BLANK))
  }

  /** The terminal whose rows so far are `tape`, the last one being written, with nothing below it */
  function Built(g: Geometry, tape: seq<Row>, col: nat, wrapNext: bool, pen: Style): Term
    requires tape != [] && g.rows >= 1
  {
    if |tape| <= g.rows then Term([], tape + BlankRows(g, g.rows - |tape|), |tape| - 1, col, wrapNext, pen)
    else Term(tape[..|tape| - g.rows], tape[|tape| - g.rows..], g.rows - 1, col, wrapNext, pen)
  }

  predicate Fits(g: Geometry, tape: seq<Row>) {
    && tape != [] && g.cols >= 2 && g.rows >= 1 && |tape| <= g.rows + g.scrollback
    && forall r :: r in tape ==> |r| == g.cols
  }

  lemma BuiltValid(g: Geometry, tape: seq<Row>, col: nat, wrapNext: bool, pen: Style)
    requires Fits(g, tape) && col < g.cols
    ensures Valid(g, Built(g, tape, col, wrapNext, pen))
  {}

  /** The terminal whose last row is `s` */
  function On(g: Geometry, tape: seq<Row>, s: Strip): Term
    requires g.rows >= 1
  {
    Built(g, tape + [s.cells], s.col, s.wrapNext, s.pen)
  }

  ghost predicate Ready(g: Geometry, tape: seq<Row>, s: Strip) {
    && g.cols >= 2 && g.rows >= 1 && |tape| < g.rows + g.scrollback
    && (forall r :: r in tape ==> |r| == g.cols) && ValidStrip(g, s)
  }

  lemma OnValid(g: Geometry, tape: seq<Row>, s: Strip)
    requires Ready(g, tape, s)
    ensures Fits(g, tape + [s.cells]) && Valid(g, On(g, tape, s)) && Focus(g, On(g, tape, s)) == s
  {
    assert Fits(g, tape + [s.cells]);
    BuiltValid(g, tape + [s.cells], s.col, s.wrapNext, s.pen);
  }

  lemma OnRefocus(g: Geometry, tape: seq<Row>, s: Strip, s': Strip)
    requires Ready(g, tape, s) && ValidStrip(g, s')
    ensures Valid(g, On(g, tape, s)) && Refocus(g, On(g, tape, s), s') == On(g, tape, s')
  {
    OnValid(g, tape, s);
    BuiltSwap(g, tape, s.cells, s'.cells);
  }

  /** The rows of a built terminal, which do not depend on its cursor */
  lemma BuiltSwap(g: Geometry, tape: seq<Row>, a: Row, b: Row)
    requires g.rows >= 1
    ensures forall ca, wa, pa, cb, wb, pb ::
      var t, u := Built(g, tape + [a], ca, wa, pa), Built(g, tape + [b], cb, wb, pb);
      t.line == u.line < |t.screen| && t.screen[t.line := b] == u.screen && t.history == u.history
  {
    var t, u := Built(g, tape + [a], 0, false, DEFAULT), Built(g, tape + [b], 0, false, DEFAULT);
    assert t.screen[t.line := b] == u.screen;
    assert t.history == u.history;
  }

  function FreshFill(g: Geometry, tape: seq<Row>, pen: Style): Cell {
    if |tape| >= g.rows then Erased(pen) else BLANK
  }

  lemma FeedDown(g: Geometry, tape: seq<Row>, col: nat, wrapNext: bool, pen: Style)
    requires Fits(g, tape) && col < g.cols && |tape| < g.rows
    ensures Valid(g, Built(g, tape, col, wrapNext, pen))
    ensures LineFeed(g, Built(g, tape, col, wrapNext, pen)) == Built(g, tape + [Filled(g, BLANK)], col, wrapNext, pen)
  {
    BuiltValid(g, tape, col, wrapNext, pen);
    assert tape + BlankRows(g, g.rows - |tape|) == tape + [Filled(g, BLANK)] + BlankRows(g, g.rows - |tape| - 1);
  }

  /** Appending a row moves the window over the last rows down by one */
  lemma Window(tape: seq<Row>, rows: nat, row: Row)
    requires 1 <= rows <= |tape|
    ensures tape[|tape| - rows..][1..] + [row] == (tape + [row])[|tape| + 1 - rows..]
    ensures tape[..|tape| - rows] + [tape[|tape| - rows..][0]] == (tape + [row])[..|tape| + 1 - rows]
  {}

  lemma FeedScroll(g: Geometry, tape: seq<Row>, col: nat, wrapNext: bool, pen: Style)
    requires Fits(g, tape) && col < g.cols && g.rows <= |tape| < g.rows + g.scrollback
    ensures Valid(g, Built(g, tape, col, wrapNext, pen))
    ensures LineFeed(g, Built(g, tape, col, wrapNext, pen))
            == Built(g, tape + [Filled(g, Erased(pen))], col, wrapNext, pen)
  {
    BuiltValid(g, tape, col, wrapNext, pen);
    Window(tape, g.rows, Filled(g, Erased(pen)));
  }

  lemma BuiltFeed(g: Geometry, tape: seq<Row>, col: nat, wrapNext: bool, pen: Style)
    requires Fits(g, tape) && col < g.cols && |tape| < g.rows + g.scrollback
    ensures Valid(g, Built(g, tape, col, wrapNext, pen)) && Fits(g, tape + [Filled(g, FreshFill(g, tape, pen))])
    ensures LineFeed(g, Built(g, tape, col, wrapNext, pen))
            == Built(g, tape + [Filled(g, FreshFill(g, tape, pen))], col, wrapNext, pen)
  {
    if |tape| < g.rows { FeedDown(g, tape, col, wrapNext, pen); } else { FeedScroll(g, tape, col, wrapNext, pen); }
  }

  // ----- operations that stay on the row

  predicate Stays(g: Geometry, s: Strip, op: Op) {
    op.Pen? || (op.Print? && HasRoom(g, s, op.c))
  }

  function StripDo(g: Geometry, s: Strip, op: Op): (s': Strip)
    requires ValidStrip(g, s) && Stays(g, s, op)
    ensures ValidStrip(g, s')
  {
    if op.Pen? then s.(pen := Read(op.params, s.pen)) else PutChar(g, s, op.c)
  }

  /** The strip after operations, if they all stay on it */
  function StripAfter(g: Geometry, s: Strip, ops: seq<Op>): Option<Strip>
    requires ValidStrip(g, s)
    decreases |ops|
  {
    if ops == [] then Some(s)
    else if Stays(g, s, ops[0]) then StripAfter(g, StripDo(g, s, ops[0]), ops[1..])
    else None
  }

  predicate StripRun(g: Geometry, s: Strip, ops: seq<Op>, s': Strip)
    requires ValidStrip(g, s)
  {
    StripAfter(g, s, ops) == Some(s')
  }

  lemma OnDo(g: Geometry, tape: seq<Row>, s: Strip, op: Op)
    requires Ready(g, tape, s) && Stays(g, s, op)
    ensures Valid(g, On(g, tape, s)) && Do(g, On(g, tape, s), op) == On(g, tape, StripDo(g, s, op))
  {
    OnValid(g, tape, s);
    if op.Print? {
      OnRefocus(g, tape, s, PutChar(g, s, op.c));
    }
  }

  lemma {:induction false} OnRun(g: Geometry, tape: seq<Row>, s: Strip, ops: seq<Op>)
    requires Ready(g, tape, s) && StripAfter(g, s, ops).Some?
    ensures Valid(g, On(g, tape, s)) && DoAll(g, On(g, tape, s), ops) == On(g, tape, StripAfter(g, s, ops).value)
    decreases |ops|
  {
    OnValid(g, tape, s);
    if ops != [] {
      OnDo(g, tape, s, ops[0]);
      OnRun(g, tape, StripDo(g, s, ops[0]), ops[1..]);
    }
  }

  lemma {:induction false} StripRunAppend(g: Geometry, s: Strip, a: seq<Op>, s1: Strip, b: seq<Op>, s2: Strip)
    requires ValidStrip(g, s) && StripRun(g, s, a, s1) && ValidStrip(g, s1) && StripRun(g, s1, b, s2)
    ensures StripRun(g, s, a + b, s2)
    decreases |a|
  {
    if a == [] {
      assert a + b == b;
    } else {
      assert (a + b)[1..] == a[1..] + b;
      StripRunAppend(g, StripDo(g, s, a[0]), a[1..], s1, b, s2);
    }
  }

  // ----- one cell, one row

  /** The first `k` columns of the row are written, the wrap pending once it is full */
  function At(g: Geometry, cells: Row, k: nat, pen: Style): (s: Strip)
    requires |cells| == g.cols && g.cols >= 2
    ensures ValidStrip(g, s)
  {
    Strip(cells, if k < g.cols then k else g.cols - 1, k >= g.cols, pen)
  }

  lemma {:induction false} MarksRun(g: Geometry, cells: Row, k: nat, w: nat, pen: Style, marks: string)
    requires |cells| == g.cols && g.cols >= 2 && 1 <= w <= 2 && k + w <= g.cols
    requires forall m :: m in marks ==> g.width(m) == 0
    requires if w == 1 then !cells[k].shape.Spacer? else cells[k + 1].shape.Spacer?
    ensures StripRun(g, At(g, cells, k + w, pen), MarkOps(marks),
                     At(g, cells[k := cells[k].(marks := cells[k].marks + marks)], k + w, pen))
    decreases |marks|
  {
    if marks == "" {
      assert cells[k].marks + marks == cells[k].marks;
      assert cells[k := cells[k].(marks := cells[k].marks + marks)] == cells;
    } else {
      var cells1 := cells[k := cells[k].(marks := cells[k].marks + [marks[0]])];
      assert marks[0] in marks;
      assert StripDo(g, At(g, cells, k + w, pen), Print(marks[0])) == At(g, cells1, k + w, pen);
      MarksRun(g, cells1, k, w, pen, marks[1..]);
      assert cells[k].marks + [marks[0]] + marks[1..] == cells[k].marks + marks;
      assert cells1[k := cells1[k].(marks := cells[k].marks + marks)]
        == cells[k := cells[k].(marks := cells[k].marks + marks)];
      assert MarkOps(marks)[1..] == MarkOps(marks[1..]);
    }
  }

  lemma PenRun(g: Geometry, cells: Row, k: nat, pen: Style, style: Style)
    requires |cells| == g.cols && g.cols >= 2
    ensures StripRun(g, At(g, cells, k, Readable(pen)), PenOps(pen, style), At(g, cells, k, Readable(style)))
  {
    if style != pen {
      ReadParams(style, Readable(pen));
      assert PenOps(pen, style)[1..] == [];
    }
  }

  function Step(cell: Cell): nat { if cell.shape.Wide? then 2 else 1 }

  /** The cells once the character of column `k` is printed, before its marks */
  function Bare(g: Geometry, cells: Row, k: nat, c: char, pen: Style, w: nat): (r: Row)
    requires |cells| == g.cols && 1 <= w <= 2 && k + w <= g.cols
    ensures |r| == g.cols
  {
    if w == 1 then cells[k := Cell(c, "", pen, Narrow, false)]
    else cells[k := Cell(c, "", pen, Wide, false)][k + 1 := Cell(' ', "", pen, Spacer, false)]
  }

  lemma BareRun(g: Geometry, cells: Row, k: nat, c: char, pen: Style, w: nat)
    requires g.cols >= 2 && |cells| == g.cols && 1 <= w <= 2 && k + w <= g.cols && g.width(c) == w
    ensures Stays(g, At(g, cells, k, pen), Print(c))
    ensures StripDo(g, At(g, cells, k, pen), Print(c)) == At(g, Bare(g, cells, k, c, pen, w), k + w, pen)
  {}

  /** A cell that prints one character of its own width, with its marks */
  predicate Inkable(g: Geometry, cell: Cell) {
    !IsSpacer(cell) && g.width(Visible(cell.c)) == Step(cell) && forall m :: m in cell.marks ==> g.width(m) == 0
  }

  /** The row with a cell shown at column `k`, and its spacer behind it when it is wide */
  function Inked(g: Geometry, cells: Row, k: nat, cell: Cell): (r: Row)
    requires |cells| == g.cols && k + Step(cell) <= g.cols
    ensures |r| == g.cols
  {
    var r := cells[k := ShownCell(cell)];
    if Step(cell) == 1 then r else r[k + 1 := Cell(' ', "", Readable(cell.style), Spacer, false)]
  }

  lemma BareInked(g: Geometry, cells: Row, k: nat, cell: Cell)
    requires g.cols >= 2 && |cells| == g.cols && k + Step(cell) <= g.cols && Inkable(g, cell)
    ensures var bare := Bare(g, cells, k, Visible(cell.c), Readable(cell.style), Step(cell));
      && bare[k].marks == "" && (if Step(cell) == 1 then !bare[k].shape.Spacer? else bare[k + 1].shape.Spacer?)
      && bare[k := bare[k].(marks := cell.marks)] == Inked(g, cells, k, cell)
  {}

  lemma CharRun(g: Geometry, cells: Row, k: nat, cell: Cell)
    requires g.cols >= 2 && |cells| == g.cols && k + Step(cell) <= g.cols && Inkable(g, cell)
    ensures StripRun(g, At(g, cells, k, Readable(cell.style)), [Print(Visible(cell.c))] + MarkOps(cell.marks),
                     At(g, Inked(g, cells, k, cell), k + Step(cell), Readable(cell.style)))
  {
    var pen, w, c := Readable(cell.style), Step(cell), Visible(cell.c);
    var bare := Bare(g, cells, k, c, pen, w);
    BareInked(g, cells, k, cell);
    BareRun(g, cells, k, c, pen, w);
    MarksRun(g, bare, k, w, pen, cell.marks);
    assert "" + cell.marks == cell.marks;
    assert ([Print(c)] + MarkOps(cell.marks))[1..] == MarkOps(cell.marks);
  }

  lemma CellRun(g: Geometry, cells: Row, k: nat, pen: Style, cell: Cell)
    requires g.cols >= 2 && |cells| == g.cols && k + Step(cell) <= g.cols && Inkable(g, cell)
    ensures StripRun(g, At(g, cells, k, Readable(pen)), CellOps(pen, cell),
                     At(g, Inked(g, cells, k, cell), k + Step(cell), Readable(cell.style)))
  {
    var shown := [Print(Visible(cell.c))] + MarkOps(cell.marks);
    PenRun(g, cells, k, pen, cell.style);
    CharRun(g, cells, k, cell);
    StripRunAppend(g, At(g, cells, k, Readable(pen)), PenOps(pen, cell.style), At(g, cells, k, Readable(cell.style)),
      shown, At(g, Inked(g, cells, k, cell), k + Step(cell), Readable(cell.style)));
    Assoc(PenOps(pen, cell.style), [Print(Visible(cell.c))], MarkOps(cell.marks));
  }

  // ----- from one row to the next

  lemma WrapOn(g: Geometry, tape: seq<Row>, s: Strip)
    requires Ready(g, tape, s) && |tape| + 1 < g.rows + g.scrollback
    ensures var row := s.cells[s.col := s.cells[s.col].(wrap := true)];
      var next := Strip(Filled(g, FreshFill(g, tape + [row], s.pen)), 0, false, s.pen);
      && Valid(g, On(g, tape, s)) && WrapLine(g, On(g, tape, s)) == On(g, tape + [row], next)
  {
    var s' := Put(g, s, s.cells[s.col].(wrap := true));
    OnValid(g, tape, s);
    OnRefocus(g, tape, s, s');
    OnValid(g, tape, s');
    BuiltFeed(g, tape + [s'.cells], s'.col, s'.wrapNext, s'.pen);
  }

  /** A row that wraps, a wide character that did not fit leaving its spacer */
  function WrappedRow(g: Geometry, cells: Row, stop: nat, pen: Style): (r: Row)
    requires |cells| == g.cols && g.cols >= 2
    ensures |r| == g.cols
  {
    SetWrap(if stop == g.cols then cells else cells[g.cols - 1 := Cell(' ', "", pen, LeadingSpacer, false)], true)
  }

  /** The start of the row below, as a wrap or a line feed leaves it */
  function Below(g: Geometry, tape: seq<Row>, pen: Style): (s: Strip)
    requires g.cols >= 2
    ensures ValidStrip(g, s)
  {
    At(g, Filled(g, FreshFill(g, tape, pen)), 0, pen)
  }

  lemma RoomFull(g: Geometry, tape: seq<Row>, cells: Row, pen: Style, c: char, x: Term, y: Term)
    requires |cells| == g.cols && g.cols >= 2 && Ready(g, tape, At(g, cells, g.cols, pen))
    requires |tape| + 1 < g.rows + g.scrollback && 1 <= g.width(c) && x == On(g, tape, At(g, cells, g.cols, pen))
    requires var row := WrappedRow(g, cells, g.cols, pen); y == On(g, tape + [row], Below(g, tape + [row], pen))
    ensures Valid(g, x) && MakeRoom(g, x, c) == y
  {
    var s := At(g, cells, g.cols, pen);
    OnValid(g, tape, s);
    assert s.cells[s.col := s.cells[s.col].(wrap := true)] == WrappedRow(g, cells, g.cols, pen);
    WrapOn(g, tape, s);
  }

  lemma RoomEdge(g: Geometry, tape: seq<Row>, cells: Row, pen: Style, c: char, x: Term, y: Term)
    requires |cells| == g.cols && g.cols >= 2 && Ready(g, tape, At(g, cells, g.cols - 1, pen))
    requires |tape| + 1 < g.rows + g.scrollback && g.width(c) == 2 && x == On(g, tape, At(g, cells, g.cols - 1, pen))
    requires var row := WrappedRow(g, cells, g.cols - 1, pen); y == On(g, tape + [row], Below(g, tape + [row], pen))
    ensures Valid(g, x) && MakeRoom(g, x, c) == y
  {
    var s := At(g, cells, g.cols - 1, pen);
    var s' := Put(g, s, Cell(' ', "", pen, LeadingSpacer, false));
    OnValid(g, tape, s);
    OnRefocus(g, tape, s, s');
    assert s'.cells[s'.col := s'.cells[s'.col].(wrap := true)] == WrappedRow(g, cells, g.cols - 1, pen);
    WrapOn(g, tape, s');
  }

  lemma SameRoom(g: Geometry, t: Term, u: Term, s: Strip, c: char)
    requires Valid(g, t) && Valid(g, u) && MakeRoom(g, t, c) == u && Focus(g, u) == s && HasRoom(g, s, c)
    ensures Do(g, t, Print(c)) == Do(g, u, Print(c))
  {}

  lemma RoomBelow(g: Geometry, tape: seq<Row>, pen: Style, c: char)
    requires g.cols >= 2 && 1 <= g.width(c) <= 2
    ensures HasRoom(g, Below(g, tape, pen), c)
  {}

  /** The wrap that the first character of a joined row makes the terminal do */
  lemma JoinPrint(g: Geometry, tape: seq<Row>, cells: Row, stop: nat, pen: Style, c: char, row: Row, x: Term, y: Term)
    requires |cells| == g.cols && g.cols >= 2 && Ready(g, tape, At(g, cells, stop, pen))
    requires |tape| + 1 < g.rows + g.scrollback && row == WrappedRow(g, cells, stop, pen)
    requires (stop == g.cols || (stop == g.cols - 1 && g.width(c) == 2)) && 1 <= g.width(c) <= 2
    requires x == On(g, tape, At(g, cells, stop, pen)) && y == On(g, tape + [row], Below(g, tape + [row], pen))
    requires Valid(g, x) && Valid(g, y) && Focus(g, y) == Below(g, tape + [row], pen)
    ensures Do(g, x, Print(c)) == Do(g, y, Print(c))
  {
    RoomBelow(g, tape + [row], pen, c);
    if stop == g.cols {
      RoomFull(g, tape, cells, pen, c, x, y);
      SameRoom(g, x, y, Below(g, tape + [row], pen), c);
    } else {
      RoomEdge(g, tape, cells, pen, c, x, y);
      SameRoom(g, x, y, Below(g, tape + [row], pen), c);
    }
  }

  lemma {:induction false} DoAllCons(g: Geometry, t: Term, op: Op, rest: seq<Op>)
    requires Valid(g, t)
    ensures DoAll(g, t, [op] + rest) == DoAll(g, Do(g, t, op), rest)
  {
    assert ([op] + rest)[1..] == rest;
  }

  lemma {:induction false} SetPenOn(g: Geometry, tape: seq<Row>, cells: Row, k: nat, pen: Style, style: Style)
    requires |cells| == g.cols && g.cols >= 2 && Ready(g, tape, At(g, cells, k, Readable(pen)))
    ensures Valid(g, On(g, tape, At(g, cells, k, Readable(pen))))
    ensures DoAll(g, On(g, tape, At(g, cells, k, Readable(pen))), PenOps(pen, style))
            == On(g, tape, At(g, cells, k, Readable(style)))
  {
    PenRun(g, cells, k, pen, style);
    OnRun(g, tape, At(g, cells, k, Readable(pen)), PenOps(pen, style));
  }

  lemma {:induction false} SwapStart(g: Geometry, x: Term, xp: Term, y: Term, penOps: seq<Op>, c: char, rest: seq<Op>)
    requires Valid(g, x) && Valid(g, xp) && Valid(g, y) && DoAll(g, x, penOps) == xp
    requires Do(g, xp, Print(c)) == Do(g, y, Print(c))
    ensures DoAll(g, x, penOps + ([Print(c)] + rest)) == DoAll(g, y, [Print(c)] + rest)
  {
    DoAllAppend(g, x, penOps, [Print(c)] + rest);
    DoAllCons(g, xp, Print(c), rest);
    DoAllCons(g, y, Print(c), rest);
  }

  lemma BuiltCursor(g: Geometry, tape: seq<Row>, col: nat, wrapNext: bool, pen: Style, col': nat,
                    wrapNext': bool, pen': Style)
    requires tape != [] && g.rows >= 1
    ensures Built(g, tape, col, wrapNext, pen).(col := col', wrapNext := wrapNext', pen := pen')
            == Built(g, tape, col', wrapNext', pen')
  {}

  lemma ReturnBuilt(g: Geometry, rows: seq<Row>, col: nat, wrapNext: bool)
    requires Fits(g, rows) && col < g.cols
    ensures Valid(g, Built(g, rows, col, wrapNext, DEFAULT))
    ensures Do(g, Built(g, rows, col, wrapNext, DEFAULT), Return) == Built(g, rows, 0, false, DEFAULT)
  {
    BuiltValid(g, rows, col, wrapNext, DEFAULT);
    BuiltCursor(g, rows, col, wrapNext, DEFAULT, 0, false, DEFAULT);
  }

  lemma {:induction false} ReturnFeed(g: Geometry, rows: seq<Row>, col: nat, wrapNext: bool)
    requires Fits(g, rows) && col < g.cols && |rows| < g.rows + g.scrollback
    ensures Valid(g, Built(g, rows, col, wrapNext, DEFAULT))
    ensures DoAll(g, Built(g, rows, col, wrapNext, DEFAULT), NEW_LINE)
            == Built(g, rows + [Filled(g, BLANK)], 0, false, DEFAULT)
  {
    ReturnBuilt(g, rows, col, wrapNext);
    BuiltFeed(g, rows, 0, false, DEFAULT);
    assert FreshFill(g, rows, DEFAULT) == BLANK;
    DoTwo(g, Built(g, rows, col, wrapNext, DEFAULT), Return, Feed);
  }

  lemma {:induction false} NewLineOn(g: Geometry, tape: seq<Row>, s: Strip)
    requires Ready(g, tape, s) && |tape| + 1 < g.rows + g.scrollback && s.pen == DEFAULT
    ensures var next := At(g, Filled(g, BLANK), 0, DEFAULT);
      && Valid(g, On(g, tape, s)) && Ready(g, tape + [s.cells], next)
      && DoAll(g, On(g, tape, s), NEW_LINE) == On(g, tape + [s.cells], next)
  {
    OnValid(g, tape, s);
    ReturnFeed(g, tape + [s.cells], s.col, s.wrapNext);
  }

  lemma {:induction false} DoTwo(g: Geometry, t: Term, a: Op, b: Op)
    requires Valid(g, t)
    ensures DoAll(g, t, [a, b]) == Do(g, Do(g, t, a), b)
  {
    assert [a, b][1..] == [b] && [b][1..] == [];
    assert DoAll(g, Do(g, t, a), [b]) == Do(g, Do(g, t, a), b);
  }

  lemma {:induction false} ReadReset(pen: Style)
    ensures Read([[0]], pen) == DEFAULT
  {
    var zero: seq<Param> := [[0]];
    assert zero[1..] == [];
  }

  lemma {:induction false} ResetOn(g: Geometry, tape: seq<Row>, s: Strip)
    requires Ready(g, tape, s)
    ensures Valid(g, On(g, tape, s)) && DoAll(g, On(g, tape, s), RESET) == On(g, tape, s.(pen := DEFAULT))
  {
    OnValid(g, tape, s);
    ReadReset(s.pen);
    BuiltCursor(g, tape + [s.cells], s.col, s.wrapNext, s.pen, s.col, s.wrapNext, DEFAULT);
    DoAllCons(g, On(g, tape, s), Pen([[0]]), []);
    assert RESET == [Pen([[0]])] + [];
  }

  /** A new line after a row leaves a blank row and a default pen, whatever the pen was */
  lemma {:induction false} BreakOn(g: Geometry, tape: seq<Row>, s: Strip, pen: Style)
    requires Ready(g, tape, s) && |tape| + 1 < g.rows + g.scrollback && s.pen == Readable(pen)
    ensures var next := At(g, Filled(g, BLANK), 0, DEFAULT);
      && Valid(g, On(g, tape, s)) && Ready(g, tape + [s.cells], next)
      && DoAll(g, On(g, tape, s), BreakOps(pen)) == On(g, tape + [s.cells], next)
  {
    if pen == DEFAULT {
      ReadableDefault();
      NewLineOn(g, tape, s);
      assert BreakOps(pen) == NEW_LINE;
    } else {
      ResetOn(g, tape, s);
      NewLineOn(g, tape, s.(pen := DEFAULT));
      DoAllAppend(g, On(g, tape, s), RESET, NEW_LINE);
    }
  }

  lemma ReadableDefault()
    ensures Readable(DEFAULT) == DEFAULT
  {
    ReadableIsPrintable(DEFAULT);
  }

  // ----- a sheet of rows that is written cell by cell

  /** The rows that are finished, and the one that is written up to column `k` */
  datatype Sheet = Sheet(rows: seq<Row>, row: Row, k: nat)

  predicate ValidSheet(g: Geometry, sh: Sheet) {
    g.cols >= 2 && |sh.row| == g.cols && sh.k <= g.cols
  }

  /** The row ends in a wrap, and a fresh one takes a cell of the given style */
  function NextRow(g: Geometry, sh: Sheet, style: Style): (r: Sheet)
    requires ValidSheet(g, sh)
    ensures ValidSheet(g, r)
  {
    var rows := sh.rows + [WrappedRow(g, sh.row, sh.k, Readable(style))];
    Sheet(rows, Filled(g, FreshFill(g, rows, Readable(style))), 0)
  }

  predicate HasSpace(g: Geometry, sh: Sheet, cell: Cell) { sh.k + Step(cell) <= g.cols }

  /** A cell goes on the row where it has space there, and on the next row otherwise */
  function Ink(g: Geometry, sh: Sheet, cell: Cell): (r: Sheet)
    requires ValidSheet(g, sh)
    ensures ValidSheet(g, r)
  {
    var s := if HasSpace(g, sh, cell) then sh else NextRow(g, sh, cell.style);
    Sheet(s.rows, Inked(g, s.row, s.k, cell), s.k + Step(cell))
  }

  function InkRow(g: Geometry, sh: Sheet, row: Row, from: nat, end: nat): (r: Sheet)
    requires ValidSheet(g, sh) && end <= |row|
    ensures ValidSheet(g, r)
    decreases |row| - from
  {
    if from >= end then sh
    else if IsSpacer(row[from]) then InkRow(g, sh, row, from + 1, end)
    else InkRow(g, Ink(g, sh, row[from]), row, from + Step(row[from]), end)
  }

  function BreakSheet(g: Geometry, sh: Sheet): (r: Sheet)
    requires ValidSheet(g, sh)
    ensures ValidSheet(g, r)
  {
    Sheet(sh.rows + [sh.row], Filled(g, BLANK), 0)
  }

  /** Where row `i` starts to be written: where the row above it ends if it joins that, on a row of its own otherwise */
  function StartSheet(g: Geometry, sh: Sheet, lines: seq<Row>, i: nat): (r: Sheet)
    requires ValidSheet(g, sh) && i < |lines|
    ensures ValidSheet(g, r)
  {
    if i == 0 || Joined(lines, i) then sh else BreakSheet(g, sh)
  }

  /** The first `n` rows of a grid written out on a blank sheet */
  function SheetAt(g: Geometry, lines: seq<Row>, n: nat): (r: Sheet)
    requires g.cols >= 2 && n <= |lines|
    ensures ValidSheet(g, r)
  {
    if n == 0 then Sheet([], Filled(g, BLANK), 0)
    else InkRow(g, StartSheet(g, SheetAt(g, lines, n - 1), lines, n - 1), lines[n - 1], 0, End(lines[n - 1]))
  }

  function Reflow(g: Geometry, lines: seq<Row>): (r: Sheet)
    requires g.cols >= 2
    ensures ValidSheet(g, r)
  {
    SheetAt(g, lines, |lines|)
  }

  // ----- the terminal writes the sheet

  /** The number of rows that are not of full length */
  function Ragged(g: Geometry, rows: seq<Row>): nat {
    if rows == [] then 0
    else Ragged(g, rows[..|rows| - 1]) + (if |rows[|rows| - 1]| == g.cols then 0 else 1)
  }

  lemma {:induction false} NotRagged(g: Geometry, rows: seq<Row>)
    requires Ragged(g, rows) == 0
    ensures forall r :: r in rows ==> |r| == g.cols
  {
    if rows != [] {
      var n := |rows| - 1;
      NotRagged(g, rows[..n]);
      forall r | r in rows ensures |r| == g.cols { assert r == rows[n] || r in rows[..n]; }
    }
  }

  lemma {:induction false} RaggedSnoc(g: Geometry, rows: seq<Row>, row: Row)
    requires |row| == g.cols
    ensures Ragged(g, rows + [row]) == Ragged(g, rows)
  {
    assert (rows + [row])[..|rows|] == rows;
  }

  predicate Written(g: Geometry, sh: Sheet) {
    ValidSheet(g, sh) && Ragged(g, sh.rows) == 0 && g.rows >= 1 && |sh.rows| < g.rows + g.scrollback
  }

  function Paper(g: Geometry, sh: Sheet, pen: Style): Term
    requires ValidSheet(g, sh) && g.rows >= 1
  {
    On(g, sh.rows, At(g, sh.row, sh.k, pen))
  }

  lemma PaperValid(g: Geometry, sh: Sheet, pen: Style)
    requires Written(g, sh)
    ensures Ready(g, sh.rows, At(g, sh.row, sh.k, pen)) && Valid(g, Paper(g, sh, pen))
  {
    NotRagged(g, sh.rows);
    OnValid(g, sh.rows, At(g, sh.row, sh.k, pen));
  }

  /** How far the sheet reaches into row `i`, which is not at all while it is above it */
  function Reach(g: Geometry, sh: Sheet, i: nat): nat {
    if |sh.rows| < i then 0 else if |sh.rows| == i then sh.k else g.cols + 1
  }

  lemma InkReach(g: Geometry, sh: Sheet, cell: Cell, i: nat, j: nat)
    requires ValidSheet(g, sh) && Reach(g, sh, i) <= j && j + Step(cell) <= g.cols
    ensures Reach(g, Ink(g, sh, cell), i) <= j + Step(cell) && (HasSpace(g, sh, cell) || |sh.rows| + 1 <= i)
  {}

  lemma {:induction false} CellOn(g: Geometry, tape: seq<Row>, cells: Row, k: nat, pen: Style, cell: Cell)
    requires |cells| == g.cols && g.cols >= 2 && Ready(g, tape, At(g, cells, k, Readable(pen)))
    requires Inkable(g, cell) && k + Step(cell) <= g.cols
    ensures Valid(g, On(g, tape, At(g, cells, k, Readable(pen))))
    ensures DoAll(g, On(g, tape, At(g, cells, k, Readable(pen))), CellOps(pen, cell))
            == On(g, tape, At(g, Inked(g, cells, k, cell), k + Step(cell), Readable(cell.style)))
  {
    CellRun(g, cells, k, pen, cell);
    OnRun(g, tape, At(g, cells, k, Readable(pen)), CellOps(pen, cell));
  }

  lemma InkIsHere(g: Geometry, sh: Sheet, cell: Cell)
    requires ValidSheet(g, sh) && HasSpace(g, sh, cell)
    ensures Ink(g, sh, cell) == Sheet(sh.rows, Inked(g, sh.row, sh.k, cell), sh.k + Step(cell))
  {}

  lemma {:induction false} SheetInked(g: Geometry, sh: Sheet, next: Sheet, cell: Cell, pen: Style)
    requires ValidSheet(g, sh) && ValidSheet(g, next) && Inkable(g, cell) && HasSpace(g, sh, cell)
    requires Ready(g, sh.rows, At(g, sh.row, sh.k, Readable(pen)))
    requires next == Sheet(sh.rows, Inked(g, sh.row, sh.k, cell), sh.k + Step(cell))
    ensures Valid(g, Paper(g, sh, Readable(pen)))
    ensures DoAll(g, Paper(g, sh, Readable(pen)), CellOps(pen, cell)) == Paper(g, next, Readable(cell.style))
  {
    CellOn(g, sh.rows, sh.row, sh.k, pen, cell);
  }

  lemma {:induction false} InkHere(g: Geometry, sh: Sheet, cell: Cell, pen: Style)
    requires Written(g, sh) && Inkable(g, cell) && HasSpace(g, sh, cell)
    ensures Valid(g, Paper(g, sh, Readable(pen)))
    ensures DoAll(g, Paper(g, sh, Readable(pen)), CellOps(pen, cell))
            == Paper(g, Ink(g, sh, cell), Readable(cell.style))
  {
    PaperValid(g, sh, Readable(pen));
    InkIsHere(g, sh, cell);
    SheetInked(g, sh, Ink(g, sh, cell), cell, pen);
  }

  lemma NextWritten(g: Geometry, sh: Sheet, style: Style)
    requires Written(g, sh) && |sh.rows| + 1 < g.rows + g.scrollback
    ensures Written(g, NextRow(g, sh, style))
  {
    RaggedSnoc(g, sh.rows, WrappedRow(g, sh.row, sh.k, Readable(style)));
  }

  /** Printing where there is no space is printing on the next row */
  lemma PrintBelow(g: Geometry, sh: Sheet, cell: Cell, x: Term, y: Term)
    requires Written(g, sh) && Inkable(g, cell) && !HasSpace(g, sh, cell) && |sh.rows| + 1 < g.rows + g.scrollback
    requires x == Paper(g, sh, Readable(cell.style))
    requires y == Paper(g, NextRow(g, sh, cell.style), Readable(cell.style))
    ensures Valid(g, x) && Valid(g, y) && Do(g, x, Print(Visible(cell.c))) == Do(g, y, Print(Visible(cell.c)))
  {
    var pen := Readable(cell.style);
    var row := WrappedRow(g, sh.row, sh.k, pen);
    PaperValid(g, sh, pen);
    NextWritten(g, sh, cell.style);
    PaperValid(g, NextRow(g, sh, cell.style), pen);
    OnValid(g, sh.rows + [row], Below(g, sh.rows + [row], pen));
    JoinPrint(g, sh.rows, sh.row, sh.k, pen, Visible(cell.c), row, x, y);
  }

  lemma {:induction false} CharOnNext(g: Geometry, sh: Sheet, cell: Cell)
    requires Written(g, sh) && Inkable(g, cell) && sh.k == 0 && g.cols >= 2
    ensures Valid(g, Paper(g, sh, Readable(cell.style)))
    ensures DoAll(g, Paper(g, sh, Readable(cell.style)), [Print(Visible(cell.c))] + MarkOps(cell.marks))
            == Paper(g, Sheet(sh.rows, Inked(g, sh.row, 0, cell), Step(cell)), Readable(cell.style))
  {
    PaperValid(g, sh, Readable(cell.style));
    CharRun(g, sh.row, 0, cell);
    OnRun(g, sh.rows, At(g, sh.row, 0, Readable(cell.style)), [Print(Visible(cell.c))] + MarkOps(cell.marks));
  }

  lemma {:induction false} InkBelow(g: Geometry, sh: Sheet, cell: Cell, pen: Style)
    requires Written(g, sh) && Inkable(g, cell) && !HasSpace(g, sh, cell) && |sh.rows| + 1 < g.rows + g.scrollback
    ensures Valid(g, Paper(g, sh, Readable(pen)))
    ensures DoAll(g, Paper(g, sh, Readable(pen)), CellOps(pen, cell))
            == Paper(g, Ink(g, sh, cell), Readable(cell.style))
  {
    var xp, y := Paper(g, sh, Readable(cell.style)), Paper(g, NextRow(g, sh, cell.style), Readable(cell.style));
    PaperValid(g, sh, Readable(pen));
    PrintBelow(g, sh, cell, xp, y);
    SetPenOn(g, sh.rows, sh.row, sh.k, pen, cell.style);
    SwapStart(g, Paper(g, sh, Readable(pen)), xp, y, PenOps(pen, cell.style), Visible(cell.c), MarkOps(cell.marks));
    Assoc(PenOps(pen, cell.style), [Print(Visible(cell.c))], MarkOps(cell.marks));
    NextWritten(g, sh, cell.style);
    CharOnNext(g, NextRow(g, sh, cell.style), cell);
  }

  /** Printing a cell puts it where it goes on the sheet: on the row, or on the next one, with a spacer left at the edge
      when it is wide and one column was left */
  lemma {:induction false} InkRun(g: Geometry, sh: Sheet, cell: Cell, pen: Style)
    requires Written(g, sh) && Inkable(g, cell) && (HasSpace(g, sh, cell) || |sh.rows| + 1 < g.rows + g.scrollback)
    ensures Written(g, Ink(g, sh, cell)) && Valid(g, Paper(g, sh, Readable(pen)))
    ensures DoAll(g, Paper(g, sh, Readable(pen)), CellOps(pen, cell))
            == Paper(g, Ink(g, sh, cell), Readable(cell.style))
  {
    if HasSpace(g, sh, cell) {
      InkHere(g, sh, cell, pen);
    } else {
      NextWritten(g, sh, cell.style);
      InkBelow(g, sh, cell, pen);
    }
  }

  /** A wide character's spacer prints nothing, so the row goes on after both */
  lemma RowUnfold(g: Geometry, row: Row, k: nat, end: nat, pen: Style)
    requires |row| == g.cols && k < end <= g.cols && WholeCell(g, row, k) && !IsSpacer(row[k])
    requires end < g.cols ==> !row[end].shape.Spacer?
    ensures k + Step(row[k]) <= end && Inkable(g, row[k])
    ensures RowOps(pen, row, k, end) == CellOps(pen, row[k]) + RowOps(row[k].style, row, k + Step(row[k]), end)
    ensures RowPen(pen, row, k, end) == RowPen(row[k].style, row, k + Step(row[k]), end)
  {
    if row[k].shape.Wide? {
      assert row[k + 1].shape.Spacer?;
      assert RowOps(row[k].style, row, k + 1, end) == RowOps(row[k].style, row, k + 2, end);
    }
  }

  ghost predicate WholeAll(g: Geometry, row: Row) {
    |row| == g.cols && forall j :: 0 <= j < g.cols ==> WholeCell(g, row, j)
  }

  lemma RowStarts(g: Geometry, row: Row, k: nat)
    requires WholeAll(g, row) && k < g.cols && !IsSpacer(row[k])
    ensures k + Step(row[k]) < g.cols ==> !row[k + Step(row[k])].shape.Spacer?
  {
    assert WholeCell(g, row, k);
    if k + Step(row[k]) < g.cols { assert WholeCell(g, row, k + Step(row[k])); }
  }

  lemma {:induction false} InkRowRun(g: Geometry, sh: Sheet, row: Row, i: nat, from: nat, end: nat, pen: Style)
    requires Written(g, sh) && i < g.rows + g.scrollback && Reach(g, sh, i) <= from && from <= end <= g.cols
    requires WholeAll(g, row) && (from < end ==> !row[from].shape.Spacer?) && (end < g.cols ==> !row[end].shape.Spacer?)
    ensures Written(g, InkRow(g, sh, row, from, end)) && Reach(g, InkRow(g, sh, row, from, end), i) <= end
    ensures Valid(g, Paper(g, sh, Readable(pen)))
    ensures DoAll(g, Paper(g, sh, Readable(pen)), RowOps(pen, row, from, end))
            == Paper(g, InkRow(g, sh, row, from, end), Readable(RowPen(pen, row, from, end)))
    decreases end - from
  {
    PaperValid(g, sh, Readable(pen));
    if from < end {
      assert WholeCell(g, row, from);
      if IsSpacer(row[from]) {
        InkRowRun(g, sh, row, i, from + 1, end, pen);
      } else {
        var cell, next := row[from], from + Step(row[from]);
        RowUnfold(g, row, from, end, pen);
        RowStarts(g, row, from);
        InkReach(g, sh, cell, i, from);
        InkRun(g, sh, cell, pen);
        InkRowRun(g, Ink(g, sh, cell), row, i, next, end, cell.style);
        DoAllAppend(g, Paper(g, sh, Readable(pen)), CellOps(pen, cell), RowOps(cell.style, row, next, end));
      }
    }
  }

  // ----- the whole grid

  lemma EndUsed(g: Geometry, row: Row)
    requires g.cols >= 2 && WholeAll(g, row)
    ensures End(row) < g.cols ==> !row[End(row)].shape.Spacer?
    ensures row[0].shape.Wide? ==> End(row) > 0
    ensures !row[0].shape.Spacer? && !row[0].shape.LeadingSpacer?
  {
    assert WholeCell(g, row, 0);
  }

  predicate Gridded(g: Geometry, lines: seq<Row>) {
    g.rows >= 1 && g.cols >= 2 && 0 < |lines| <= g.rows + g.scrollback
  }

  lemma RowOfGrid(g: Geometry, lines: seq<Row>, i: nat)
    requires WholeRows(g, lines) && i < |lines|
    ensures WholeAll(g, lines[i])
  {}

  lemma {:induction false} PaperBreaks(g: Geometry, sh: Sheet, pen: Style)
    requires Written(g, sh) && |sh.rows| + 1 < g.rows + g.scrollback
    ensures Valid(g, Paper(g, sh, Readable(pen))) && Written(g, BreakSheet(g, sh))
    ensures DoAll(g, Paper(g, sh, Readable(pen)), BreakOps(pen)) == Paper(g, BreakSheet(g, sh), DEFAULT)
  {
    PaperValid(g, sh, Readable(pen));
    RaggedSnoc(g, sh.rows, sh.row);
    BreakOn(g, sh.rows, At(g, sh.row, sh.k, Readable(pen)), pen);
  }

  /** What goes before row `i` takes the terminal to where the row starts on the sheet */
  lemma {:induction false} StartRun(g: Geometry, sh: Sheet, lines: seq<Row>, above: nat, i: nat, pen: Style)
    requires Written(g, sh) && above + 1 == i < |lines| <= g.rows + g.scrollback && Reach(g, sh, above) <= g.cols
    ensures var start := StartSheet(g, sh, lines, i);
      && Written(g, start) && Reach(g, start, i) <= 0 && Valid(g, Paper(g, sh, Readable(pen)))
      && DoAll(g, Paper(g, sh, Readable(pen)), BeforeOps(lines, i, pen))
         == Paper(g, start, Readable(PenBefore(lines, i, pen)))
  {
    PaperValid(g, sh, Readable(pen));
    if !Joined(lines, i) {
      PaperBreaks(g, sh, pen);
      ReadableDefault();
    }
  }

  lemma {:induction false} LineRun(g: Geometry, sh: Sheet, lines: seq<Row>, i: nat, pen: Style)
    requires Written(g, sh) && WholeRows(g, lines) && i < |lines| <= g.rows + g.scrollback && Reach(g, sh, i) <= 0
    ensures var sh' := InkRow(g, sh, lines[i], 0, End(lines[i]));
      && Written(g, sh') && Reach(g, sh', i) <= g.cols && Valid(g, Paper(g, sh, Readable(pen)))
      && DoAll(g, Paper(g, sh, Readable(pen)), RowOps(pen, lines[i], 0, End(lines[i])))
         == Paper(g, sh', Readable(RowPen(pen, lines[i], 0, End(lines[i]))))
  {
    RowOfGrid(g, lines, i);
    EndUsed(g, lines[i]);
    InkRowRun(g, sh, lines[i], i, 0, End(lines[i]), pen);
  }

  /** The pen behind the first `n` rows, and all that is printed for them */
  function PenAt(lines: seq<Row>, n: nat): Style
    requires n <= |lines|
  {
    if n == 0 then DEFAULT else RowPen(PenBefore(lines, n - 1, PenAt(lines, n - 1)), lines[n - 1], 0, End(lines[n - 1]))
  }

  function LineOps(lines: seq<Row>, i: nat, pen: Style): seq<Op>
    requires i < |lines|
  {
    BeforeOps(lines, i, pen) + RowOps(PenBefore(lines, i, pen), lines[i], 0, End(lines[i]))
  }

  function FirstOps(lines: seq<Row>, n: nat): seq<Op>
    requires n <= |lines|
  {
    if n == 0 then [] else FirstOps(lines, n - 1) + LineOps(lines, n - 1, PenAt(lines, n - 1))
  }

  lemma {:induction false} FirstThenRest(lines: seq<Row>, n: nat)
    requires n <= |lines|
    ensures LinesOps(lines, 0, DEFAULT) == FirstOps(lines, n) + LinesOps(lines, n, PenAt(lines, n))
  {
    if n > 0 {
      FirstThenRest(lines, n - 1);
      Assoc(FirstOps(lines, n - 1), LineOps(lines, n - 1, PenAt(lines, n - 1)), LinesOps(lines, n, PenAt(lines, n)));
    }
  }

  /** From the end of row `above` to the end of row `i` below it */
  lemma {:induction false} NextRowRun(g: Geometry, sh: Sheet, lines: seq<Row>, above: nat, i: nat, pen: Style)
    requires Written(g, sh) && WholeRows(g, lines) && above + 1 == i < |lines| <= g.rows + g.scrollback
    requires Reach(g, sh, above) <= g.cols
    ensures var sh' := InkRow(g, StartSheet(g, sh, lines, i), lines[i], 0, End(lines[i]));
      && Written(g, sh') && Reach(g, sh', i) <= g.cols && Valid(g, Paper(g, sh, Readable(pen)))
      && DoAll(g, Paper(g, sh, Readable(pen)), LineOps(lines, i, pen))
         == Paper(g, sh', Readable(RowPen(PenBefore(lines, i, pen), lines[i], 0, End(lines[i]))))
  {
    var start, pen1 := StartSheet(g, sh, lines, i), PenBefore(lines, i, pen);
    StartRun(g, sh, lines, above, i, pen);
    LineRun(g, start, lines, i, pen1);
    DoAllAppend(g, Paper(g, sh, Readable(pen)), BeforeOps(lines, i, pen), RowOps(pen1, lines[i], 0, End(lines[i])));
  }

  lemma FreshIsPaper(g: Geometry)
    requires g.rows >= 1 && g.cols >= 2
    ensures Written(g, Sheet([], Filled(g, BLANK), 0)) && Paper(g, Sheet([], Filled(g, BLANK), 0), DEFAULT) == Fresh(g)
  {
    assert [Filled(g, BLANK)] + BlankRows(g, g.rows - 1) == Fresh(g).screen;
    assert [] + [Filled(g, BLANK)] == [Filled(g, BLANK)];
  }

  lemma {:induction false} FirstRowRun(g: Geometry, lines: seq<Row>)
    requires WholeRows(g, lines) && Gridded(g, lines)
    ensures Written(g, SheetAt(g, lines, 1)) && Reach(g, SheetAt(g, lines, 1), 0) <= g.cols
    ensures DoAll(g, Fresh(g), FirstOps(lines, 1)) == Paper(g, SheetAt(g, lines, 1), Readable(PenAt(lines, 1)))
  {
    var row := RowOps(DEFAULT, lines[0], 0, End(lines[0]));
    FreshIsPaper(g);
    ReadableDefault();
    LineRun(g, Sheet([], Filled(g, BLANK), 0), lines, 0, DEFAULT);
    assert FirstOps(lines, 1) == [] + ([] + row) == row;
  }

  /** Zero when the sheet is written no further than row `i` */
  function Excess(g: Geometry, sh: Sheet, i: nat): nat {
    if Written(g, sh) && Reach(g, sh, i) <= g.cols then 0 else 1
  }

  lemma NextRowFits(g: Geometry, lines: seq<Row>, above: nat, i: nat)
    requires WholeRows(g, lines) && Gridded(g, lines) && above + 1 == i < |lines|
    requires Excess(g, SheetAt(g, lines, i), above) == 0
    ensures Excess(g, SheetAt(g, lines, i + 1), i) == 0
  {
    NextRowRun(g, SheetAt(g, lines, i), lines, above, i, DEFAULT);
  }

  /** The sheet never needs more rows than the grid has */
  lemma {:induction false} RowsFit(g: Geometry, lines: seq<Row>, n: nat)
    requires WholeRows(g, lines) && Gridded(g, lines) && 0 < n <= |lines|
    ensures Written(g, SheetAt(g, lines, n)) && Reach(g, SheetAt(g, lines, n), n - 1) <= g.cols
  {
    FirstRowRun(g, lines);
    for i := 1 to n
      invariant Excess(g, SheetAt(g, lines, i), i - 1) == 0
    {
      NextRowFits(g, lines, i - 1, i);
    }
  }

  lemma RowsStep(g: Geometry, lines: seq<Row>, m: nat, x: Term)
    requires WholeRows(g, lines) && Gridded(g, lines) && 0 < m < |lines|
    requires x == Paper(g, SheetAt(g, lines, m), Readable(PenAt(lines, m)))
    ensures Valid(g, x)
    ensures DoAll(g, x, LineOps(lines, m, PenAt(lines, m)))
            == Paper(g, SheetAt(g, lines, m + 1), Readable(PenAt(lines, m + 1)))
  {
    RowsFit(g, lines, m);
    NextRowRun(g, SheetAt(g, lines, m), lines, m - 1, m, PenAt(lines, m));
  }

  /** The terminal after the first `n` rows */
  lemma {:induction false} RowsRun(g: Geometry, lines: seq<Row>, n: nat)
    requires WholeRows(g, lines) && Gridded(g, lines) && 0 < n <= |lines|
    ensures DoAll(g, Fresh(g), FirstOps(lines, n)) == Paper(g, SheetAt(g, lines, n), Readable(PenAt(lines, n)))
  {
    if n == 1 {
      FirstRowRun(g, lines);
    } else {
      var m := n - 1;
      RowsRun(g, lines, m);
      RowsStep(g, lines, m, Paper(g, SheetAt(g, lines, m), Readable(PenAt(lines, m))));
      DoAllAppend(g, Fresh(g), FirstOps(lines, m), LineOps(lines, m, PenAt(lines, m)));
    }
  }

  /** Replaying any grid of whole cells on a fresh terminal of the same size writes it out cell by cell, each where it
      has space: a cell that has lost the wide character in front of it moves up into the row above */
  lemma {:induction false} GridReplays(g: Geometry, lines: seq<Row>)
    requires WholeRows(g, lines) && Gridded(g, lines)
    ensures Written(g, Reflow(g, lines)) && |Reflow(g, lines).rows| < |lines|
    ensures DoAll(g, Fresh(g), LinesOps(lines, 0, DEFAULT)) == Paper(g, Reflow(g, lines), DEFAULT)
  {
    var n, sh := |lines|, Reflow(g, lines);
    RowsFit(g, lines, n);
    RowsRun(g, lines, n);
    FirstThenRest(lines, n);
    PaperValid(g, sh, Readable(PenAt(lines, n)));
    ResetOn(g, sh.rows, At(g, sh.row, sh.k, Readable(PenAt(lines, n))));
    DoAllAppend(g, Fresh(g), FirstOps(lines, n), RESET);
  }
}
