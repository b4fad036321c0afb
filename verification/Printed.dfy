/** Text that is printed line by line keeps a grid whole: every wide character has its spacer, and every spacer
    at the edge the wide character it stands in for. */
module Printed {
  import opened Sgr
  import opened Screen
  import opened Snapshot
  import opened Replay
  import opened RoundTrip

  predicate Inline(g: Geometry, op: Op) {
    op.Pen? || (op.Print? && Shows(op.c) && g.width(op.c) <= 2)
  }

  /** What is left of a text behind its longest start that goes on in the same line or on a new one */
  function Left(g: Geometry, ops: seq<Op>): seq<Op>
    decreases |ops|
  {
    if ops == [] then []
    else if Inline(g, ops[0]) then Left(g, ops[1..])
    else if |ops| >= 2 && ops[0] == Return && ops[1] == Feed then Left(g, ops[2..])
    else ops
  }

  /** Text that goes on behind itself or on a new line */
  predicate Flows(g: Geometry, ops: seq<Op>) { Left(g, ops) == [] }

  /** All rows of a terminal, and the one the cursor is on */
  function Rows(t: Term): seq<Row> { t.history + t.screen }

  function Current(t: Term): nat { |t.history| + t.line }

  // ----- rows

  ghost predicate WholeRow(g: Geometry, row: Row) {
    |row| == g.cols && forall j :: 0 <= j < g.cols ==> WholeCell(g, row, j)
  }

  predicate NarrowFrom(row: Row, k: nat) { forall j :: k <= j < |row| ==> row[j].shape.Narrow? }

  lemma NarrowPut(g: Geometry, row: Row, k: nat, c: char, pen: Style)
    requires WholeRow(g, row) && k < g.cols && NarrowFrom(row, k) && g.width(c) == 1 && Shows(c)
    ensures var row' := row[k := Cell(c, "", pen, Narrow, false)]; WholeRow(g, row') && NarrowFrom(row', k + 1)
  {
    var row' := row[k := Cell(c, "", pen, Narrow, false)];
    forall j | 0 <= j < g.cols ensures WholeCell(g, row', j) { assert WholeCell(g, row, j); }
  }

  lemma WidePut(g: Geometry, row: Row, k: nat, c: char, pen: Style)
    requires WholeRow(g, row) && k + 1 < g.cols && NarrowFrom(row, k) && g.width(c) == 2 && Shows(c)
    ensures var row' := row[k := Cell(c, "", pen, Wide, false)][k + 1 := Cell(' ', "", pen, Spacer, false)];
      WholeRow(g, row') && NarrowFrom(row', k + 2)
  {
    var row' := row[k := Cell(c, "", pen, Wide, false)][k + 1 := Cell(' ', "", pen, Spacer, false)];
    forall j | 0 <= j < g.cols ensures WholeCell(g, row', j) { assert WholeCell(g, row, j); }
  }

  lemma MarkPut(g: Geometry, row: Row, k: nat, c: char)
    requires WholeRow(g, row) && k < g.cols && !IsSpacer(row[k]) && g.width(c) == 0 && Shows(c)
    ensures WholeRow(g, row[k := row[k].(marks := row[k].marks + [c])])
  {
    var row' := row[k := row[k].(marks := row[k].marks + [c])];
    forall j | 0 <= j < g.cols ensures WholeCell(g, row', j) { assert WholeCell(g, row, j); }
  }

  lemma WrapPut(g: Geometry, row: Row)
    requires g.cols >= 2 && WholeRow(g, row)
    ensures WholeRow(g, row[g.cols - 1 := row[g.cols - 1].(wrap := true)])
  {
    var row' := row[g.cols - 1 := row[g.cols - 1].(wrap := true)];
    forall j | 0 <= j < g.cols ensures WholeCell(g, row', j) { assert WholeCell(g, row, j); }
  }

  lemma LeadingPut(g: Geometry, row: Row, pen: Style)
    requires g.cols >= 2 && WholeRow(g, row) && row[g.cols - 1].shape.Narrow?
    ensures WholeRow(g, row[g.cols - 1 := Cell(' ', "", pen, LeadingSpacer, true)])
  {
    var row' := row[g.cols - 1 := Cell(' ', "", pen, LeadingSpacer, true)];
    forall j | 0 <= j < g.cols ensures WholeCell(g, row', j) { assert WholeCell(g, row, j); }
  }

  // ----- grids

  /** Every spacer at an edge is followed by its wide character, but the one of row `open`, which waits for a
      character in `pen` */
  predicate LeadBut(lines: seq<Row>, open: int, pen: Style) {
    forall i :: 0 <= i < |lines| && Leading(lines[i]) ==>
      (i == open && lines[i][|lines[i]| - 1].style == pen) || LedBy(lines, i)
  }

  predicate Leading(row: Row) { row != [] && row[|row| - 1].shape.LeadingSpacer? }

  predicate LedBy(lines: seq<Row>, i: nat)
    requires i < |lines| && lines[i] != []
  {
    i + 1 < |lines| && lines[i + 1] != [] && lines[i + 1][0].shape.Wide?
    && lines[i + 1][0].style == lines[i][|lines[i]| - 1].style
  }

  /** Whole rows, nothing but narrow cells from column `from` of row `at` on */
  ghost predicate Laid(g: Geometry, lines: seq<Row>, at: nat, from: nat, open: bool, pen: Style) {
    && g.cols >= 2 && at < |lines| && from <= g.cols && (open ==> from == 0)
    && (forall i :: 0 <= i < |lines| ==> WholeRow(g, lines[i]))
    && NarrowFrom(lines[at], from) && (forall i :: at < i < |lines| ==> NarrowFrom(lines[i], 0))
    && LeadBut(lines, if open then at - 1 else -1, pen)
  }

  /** The row of the cursor is the last with anything on it, so no spacer at its edge waits */
  lemma CurrentNotLeading(g: Geometry, lines: seq<Row>, at: nat, from: nat, open: bool, pen: Style)
    requires Laid(g, lines, at, from, open, pen)
    ensures !Leading(lines[at])
  {}

  /** The row of the cursor changes: an open spacer gets its wide character, and a first cell that was already
      written keeps its shape and style */
  lemma RowPut(g: Geometry, lines: seq<Row>, at: nat, from: nat, open: bool, pen: Style, row: Row, from': nat,
               pen': Style)
    requires Laid(g, lines, at, from, open, pen) && WholeRow(g, row) && from' <= g.cols && NarrowFrom(row, from')
    requires !Leading(row)
    requires if open then row[0].shape.Wide? && row[0].style == pen
             else from == 0 || (row[0].shape == lines[at][0].shape && row[0].style == lines[at][0].style)
    ensures Laid(g, lines[at := row], at, from', false, pen')
  {
    var lines' := lines[at := row];
    forall i | 0 <= i < |lines'| && Leading(lines'[i]) ensures LedBy(lines', i) {
      assert i != at && Leading(lines[i]);
    }
  }

  /** The row of the cursor wraps onto the row below it */
  lemma RowWraps(g: Geometry, lines: seq<Row>, at: nat, from: nat, pen: Style, row: Row)
    requires Laid(g, lines, at, from, false, pen) && WholeRow(g, row) && at + 1 < |lines|
    requires Leading(row) ==> row[g.cols - 1].style == pen
    requires from == 0 || (row[0].shape == lines[at][0].shape && row[0].style == lines[at][0].style)
    ensures Laid(g, lines[at := row], at + 1, 0, Leading(row), pen)
  {
    var lines' := lines[at := row];
    forall i | 0 <= i < |lines'| && Leading(lines'[i])
      ensures (i == at && Leading(row) && lines'[i][|lines'[i]| - 1].style == pen) || LedBy(lines', i)
    {
      if i != at { assert Leading(lines[i]); }
    }
  }

  /** The oldest row may go, unless it is the cursor's */
  lemma RowGoes(g: Geometry, lines: seq<Row>, at: nat, from: nat, open: bool, pen: Style)
    requires Laid(g, lines, at, from, open, pen) && at > 0
    ensures Laid(g, lines[1..], at - 1, from, open, pen)
  {
    var lines' := lines[1..];
    forall i | 0 <= i < |lines'| && Leading(lines'[i])
      ensures (i == (if open then at - 2 else -1) && lines'[i][|lines'[i]| - 1].style == pen) || LedBy(lines', i)
    {
      assert Leading(lines[i + 1]);
    }
  }

  /** A row of narrow cells may come in below */
  lemma RowComes(g: Geometry, lines: seq<Row>, at: nat, from: nat, open: bool, pen: Style, row: Row)
    requires Laid(g, lines, at, from, open, pen) && WholeRow(g, row) && NarrowFrom(row, 0)
    ensures Laid(g, lines + [row], at, from, open, pen)
  {
    var lines' := lines + [row];
    forall i | 0 <= i < |lines'| && Leading(lines'[i])
      ensures (i == (if open then at - 1 else -1) && lines'[i][|lines'[i]| - 1].style == pen) || LedBy(lines', i)
    {
      assert i < |lines| && Leading(lines[i]);
    }
  }

  lemma ErasedRow(g: Geometry, pen: Style)
    requires ValidGeometry(g)
    ensures WholeRow(g, Filled(g, Erased(pen))) && NarrowFrom(Filled(g, Erased(pen)), 0)
  {}

  // ----- the terminal

  /** How far the cursor's row is written */
  function From(g: Geometry, t: Term): nat { if t.wrapNext then g.cols else t.col }

  ghost predicate Sound(g: Geometry, t: Term, open: bool) {
    && ValidGeometry(g) && Valid(g, t) && (t.wrapNext ==> t.col == g.cols - 1)
    && Laid(g, Rows(t), Current(t), From(g, t), open, t.pen)
  }

  lemma RefocusRows(g: Geometry, t: Term, s: Strip)
    requires Valid(g, t) && ValidStrip(g, s)
    ensures var u := Refocus(g, t, s);
      Rows(u) == Rows(t)[Current(t) := s.cells] && Current(u) == Current(t) && Rows(t)[Current(t)] == t.screen[t.line]
  {}

  lemma GrownRows(history: seq<Row>, screen: seq<Row>, row: Row)
    requires screen != []
    ensures history + [screen[0]] + (screen[1..] + [row]) == history + screen + [row]
    ensures (history + [screen[0]])[1..] + (screen[1..] + [row]) == (history + screen + [row])[1..]
  {}

  lemma FeedRows(g: Geometry, t: Term)
    requires Valid(g, t)
    ensures var u := LineFeed(g, t);
      if t.line + 1 < g.rows then Rows(u) == Rows(t) && Current(u) == Current(t) + 1
      else
        var grown := Rows(t) + [Filled(g, Erased(t.pen))];
        (Rows(u) == grown && Current(u) == Current(t) + 1) || (Rows(u) == grown[1..] && Current(u) == Current(t))
  {
    GrownRows(t.history, t.screen, Filled(g, Erased(t.pen)));
  }

  /** What the cursor's row may become before the terminal goes on to the next one */
  ghost predicate Leaves(g: Geometry, t: Term, row: Row)
    requires Valid(g, t)
  {
    && WholeRow(g, row) && (Leading(row) ==> row[g.cols - 1].style == t.pen)
    && row[0] == t.screen[t.line][0]
  }

  lemma FeedLaid(g: Geometry, t: Term, row: Row)
    requires Sound(g, t, false) && Leaves(g, t, row)
    ensures var lines, at := Rows(t), Current(t);
      var grown := lines[at := row] + [Filled(g, Erased(t.pen))];
      && Laid(g, grown, at + 1, 0, Leading(row), t.pen)
      && (at + 1 < |lines| ==> Laid(g, lines[at := row], at + 1, 0, Leading(row), t.pen))
  {
    var lines, at, fill := Rows(t), Current(t), Filled(g, Erased(t.pen));
    assert lines[at] == t.screen[t.line];
    ErasedRow(g, t.pen);
    RowComes(g, lines, at, From(g, t), false, t.pen, fill);
    assert (lines + [fill])[at := row] == lines[at := row] + [fill];
    RowWraps(g, lines + [fill], at, From(g, t), t.pen, row);
    if at + 1 < |lines| { RowWraps(g, lines, at, From(g, t), t.pen, row); }
  }

  lemma StayLands(g: Geometry, t: Term, u: Term, row: Row)
    requires Sound(g, t, false) && Leaves(g, t, row) && t.line + 1 < g.rows
    requires Valid(g, u) && Rows(u) == Rows(t)[Current(t) := row] && u.line == t.line && Current(u) == Current(t)
    ensures Laid(g, Rows(LineFeed(g, u)), Current(LineFeed(g, u)), 0, Leading(row), t.pen)
  {
    FeedRows(g, u);
    FeedLaid(g, t, row);
  }

  lemma ScrollLands(g: Geometry, t: Term, u: Term, row: Row)
    requires Sound(g, t, false) && Leaves(g, t, row) && t.line + 1 == g.rows
    requires Valid(g, u) && u.pen == t.pen && Rows(u) == Rows(t)[Current(t) := row]
    requires u.line == t.line && Current(u) == Current(t)
    ensures Laid(g, Rows(LineFeed(g, u)), Current(LineFeed(g, u)), 0, Leading(row), t.pen)
  {
    var grown := Rows(u) + [Filled(g, Erased(t.pen))];
    FeedRows(g, u);
    FeedLaid(g, t, row);
    if Rows(LineFeed(g, u)) != grown { RowGoes(g, grown, Current(t) + 1, 0, Leading(row), t.pen); }
  }

  lemma FeedLands(g: Geometry, t: Term, u: Term, row: Row)
    requires Sound(g, t, false) && Leaves(g, t, row)
    requires u == t.(screen := t.screen[t.line := row], col := u.col, wrapNext := u.wrapNext) && u.col < g.cols
    ensures Laid(g, Rows(LineFeed(g, u)), Current(LineFeed(g, u)), 0, Leading(row), t.pen)
  {
    RefocusRows(g, t, Strip(row, u.col, u.wrapNext, t.pen));
    if t.line + 1 < g.rows { StayLands(g, t, u, row); } else { ScrollLands(g, t, u, row); }
  }

  lemma FeedSound(g: Geometry, t: Term, u: Term, row: Row)
    requires Sound(g, t, false) && Leaves(g, t, row)
    requires u == t.(screen := t.screen[t.line := row], col := u.col, wrapNext := u.wrapNext) && u.col < g.cols
    ensures Sound(g, LineFeed(g, u).(col := 0, wrapNext := false), Leading(row))
  {
    FeedLands(g, t, u, row);
    SoundAtStart(g, LineFeed(g, u), Leading(row));
  }

  lemma SoundAtStart(g: Geometry, t: Term, open: bool)
    requires ValidGeometry(g) && Valid(g, t) && Laid(g, Rows(t), Current(t), 0, open, t.pen)
    ensures Sound(g, t.(col := 0, wrapNext := false), open)
  {
    var u := t.(col := 0, wrapNext := false);
    assert Rows(u) == Rows(t) && Current(u) == Current(t) && From(g, u) == 0;
  }

  lemma NewLineSound(g: Geometry, t: Term)
    requires Sound(g, t, false)
    ensures Sound(g, Do(g, Do(g, t, Return), Feed), false)
  {
    var row, u := t.screen[t.line], t.(col := 0, wrapNext := false);
    assert Rows(t)[Current(t)] == row;
    CurrentNotLeading(g, Rows(t), Current(t), From(g, t), false, t.pen);
    assert t.screen[t.line := row] == t.screen;
    FeedSound(g, t, u, row);
  }

  lemma WrapSound(g: Geometry, t: Term)
    requires Sound(g, t, false) && t.wrapNext
    ensures Sound(g, WrapLine(g, t), false)
  {
    var cells := t.screen[t.line];
    var row := cells[g.cols - 1 := cells[g.cols - 1].(wrap := true)];
    assert Rows(t)[Current(t)] == cells;
    WrapPut(g, cells);
    CurrentNotLeading(g, Rows(t), Current(t), From(g, t), false, t.pen);
    FeedSound(g, t, Refocus(g, t, Put(g, Focus(g, t), cells[t.col].(wrap := true))), row);
  }

  lemma PutTwice<T>(rows: seq<seq<T>>, line: nat, row: seq<T>, k: nat, a: T, b: T)
    requires line < |rows| && k < |row|
    ensures rows[line := row[k := a]][line := row[k := a][k := b]] == rows[line := row[k := b]]
  {
    assert row[k := a][k := b] == row[k := b];
  }

  lemma EdgeSound(g: Geometry, t: Term)
    requires Sound(g, t, false) && !t.wrapNext && t.col == g.cols - 1
    ensures Sound(g, WrapLine(g, Refocus(g, t, Put(g, Focus(g, t), Cell(' ', "", t.pen, LeadingSpacer, false)))), true)
  {
    var cells, a, b := t.screen[t.line], Cell(' ', "", t.pen, LeadingSpacer, false),
      Cell(' ', "", t.pen, LeadingSpacer, true);
    assert Rows(t)[Current(t)] == cells;
    LeadingPut(g, cells, t.pen);
    PutTwice(t.screen, t.line, cells, g.cols - 1, a, b);
    var t1 := Refocus(g, t, Put(g, Focus(g, t), a));
    FeedSound(g, t, Refocus(g, t1, Put(g, Focus(g, t1), b)), cells[g.cols - 1 := b]);
  }

  /** A full row wraps; a row with one column left gets a spacer for the wide character it has no room for */
  lemma RoomSound(g: Geometry, t: Term, c: char)
    requires Sound(g, t, false) && 1 <= g.width(c) <= 2 && !HasRoom(g, Focus(g, t), c)
    ensures Sound(g, MakeRoom(g, t, c), !t.wrapNext) && MakeRoom(g, t, c).col == 0 && !MakeRoom(g, t, c).wrapNext
    ensures MakeRoom(g, t, c).pen == t.pen && (!t.wrapNext ==> g.width(c) == 2)
  {
    if t.wrapNext { WrapSound(g, t); } else { EdgeSound(g, t); }
  }

  /** A strip that may stand in for the cursor's row */
  lemma StripSound(g: Geometry, t: Term, s: Strip, open: bool)
    requires Sound(g, t, open) && ValidStrip(g, s) && (s.wrapNext ==> s.col == g.cols - 1)
    requires var from := if s.wrapNext then g.cols else s.col;
      WholeRow(g, s.cells) && NarrowFrom(s.cells, from) && !Leading(s.cells)
    requires var first := t.screen[t.line][0];
      if open then s.cells[0].shape.Wide? && s.cells[0].style == t.pen
      else From(g, t) == 0 || (s.cells[0].shape == first.shape && s.cells[0].style == first.style)
    ensures Sound(g, Refocus(g, t, s), false)
  {
    RefocusRows(g, t, s);
    RowPut(g, Rows(t), Current(t), From(g, t), open, t.pen, s.cells, if s.wrapNext then g.cols else s.col, s.pen);
  }

  lemma MarkSound(g: Geometry, t: Term, c: char)
    requires Sound(g, t, false) && g.width(c) == 0 && Shows(c)
    ensures Sound(g, Refocus(g, t, PutMark(g, Focus(g, t), c)), false)
  {
    var s := Focus(g, t);
    var s' := PutMark(g, s, c);
    assert Rows(t)[Current(t)] == s.cells;
    CurrentNotLeading(g, Rows(t), Current(t), From(g, t), false, t.pen);
    var col := if s.wrapNext || s.col == 0 then s.col else s.col - 1;
    assert WholeCell(g, s.cells, col);
    var at := if s.cells[col].shape.Spacer? && col > 0 then col - 1 else col;
    MarkPut(g, s.cells, at, c);
    StripSound(g, t, s', false);
  }

  lemma CharSound(g: Geometry, t: Term, c: char, open: bool)
    requires Sound(g, t, open) && 1 <= g.width(c) <= 2 && Shows(c) && HasRoom(g, Focus(g, t), c)
    requires open ==> g.width(c) == 2
    ensures Sound(g, Refocus(g, t, PutChar(g, Focus(g, t), c)), false)
  {
    var s := Focus(g, t);
    assert Rows(t)[Current(t)] == s.cells;
    CurrentNotLeading(g, Rows(t), Current(t), From(g, t), open, t.pen);
    if g.width(c) == 1 { NarrowPut(g, s.cells, s.col, c, t.pen); } else { WidePut(g, s.cells, s.col, c, t.pen); }
    StripSound(g, t, PutChar(g, s, c), open);
  }

  lemma PrintSound(g: Geometry, t: Term, c: char)
    requires Sound(g, t, false) && Inline(g, Print(c))
    ensures Sound(g, Do(g, t, Print(c)), false)
  {
    if g.width(c) == 0 {
      MarkSound(g, t, c);
    } else if HasRoom(g, Focus(g, t), c) {
      CharSound(g, t, c, false);
    } else {
      RoomSound(g, t, c);
      CharSound(g, MakeRoom(g, t, c), c, !t.wrapNext);
    }
  }

  lemma PenSound(g: Geometry, t: Term, pen: Style)
    requires Sound(g, t, false)
    ensures Sound(g, t.(pen := pen), false)
  {
    var u := t.(pen := pen);
    assert Rows(u) == Rows(t) && LeadBut(Rows(t), -1, pen);
  }

  lemma {:induction false} FlowSound(g: Geometry, t: Term, ops: seq<Op>)
    requires Sound(g, t, false) && Flows(g, ops)
    ensures Sound(g, DoAll(g, t, ops), false)
    decreases |ops|
  {
    if ops == [] {
    } else if Inline(g, ops[0]) {
      if ops[0].Pen? { PenSound(g, t, Read(ops[0].params, t.pen)); } else { PrintSound(g, t, ops[0].c); }
      FlowSound(g, Do(g, t, ops[0]), ops[1..]);
    } else {
      assert ops[1..][1..] == ops[2..] && ops[1..][0] == Feed;
      NewLineSound(g, t);
      FlowSound(g, Do(g, Do(g, t, Return), Feed), ops[2..]);
    }
  }

  lemma FreshSound(g: Geometry)
    requires ValidGeometry(g)
    ensures Sound(g, Fresh(g), false)
  {
    var t := Fresh(g);
    assert Rows(t) == t.screen;
    forall i, j | 0 <= i < |t.screen| && 0 <= j < g.cols ensures WholeCell(g, t.screen[i], j) {}
  }

  lemma LaidIsLed(g: Geometry, lines: seq<Row>, at: nat, from: nat, pen: Style)
    requires Laid(g, lines, at, from, false, pen)
    ensures forall i :: 0 <= i < |lines| && Leading(lines[i]) ==> lines[i] != [] && LedBy(lines, i)
  {}

  lemma LaidIsWhole(g: Geometry, lines: seq<Row>, at: nat, from: nat, pen: Style)
    requires Laid(g, lines, at, from, false, pen)
    ensures WholeLines(g, lines)
  {
    LaidIsLed(g, lines, at, from, pen);
    forall i, j | 0 <= i < |lines| && 0 <= j < g.cols ensures WholeCell(g, lines[i], j) {
      assert WholeRow(g, lines[i]);
    }
    forall i | 0 <= i < |lines| && lines[i][g.cols - 1].shape.LeadingSpacer? ensures LedBy(lines, i) {
      assert Leading(lines[i]);
    }
  }

  lemma SuffixWhole(g: Geometry, lines: seq<Row>, rest: seq<Row>)
    requires WholeLines(g, lines) && |rest| <= |lines| && rest == lines[|lines| - |rest|..]
    ensures WholeLines(g, rest)
  {
    var d := |lines| - |rest|;
    forall i, j | 0 <= i < |rest| && 0 <= j < g.cols ensures WholeCell(g, rest[i], j) {
      assert rest[i] == lines[d + i];
    }
    forall i | 0 <= i < |rest| && rest[i][g.cols - 1].shape.LeadingSpacer?
      ensures i + 1 < |rest| && rest[i] == lines[d + i] && rest[i + 1] == lines[d + i + 1]
    {
      assert lines[d + i][g.cols - 1].shape.LeadingSpacer?;
    }
  }

  lemma LinesAreLast(t: Term, maxHistory: nat)
    ensures |Lines(t, maxHistory)| <= |Rows(t)|
    ensures Lines(t, maxHistory) == Rows(t)[|Rows(t)| - |Lines(t, maxHistory)|..]
  {}

  lemma SoundIsWhole(g: Geometry, t: Term, maxHistory: nat)
    requires Sound(g, t, false)
    ensures Whole(g, t, maxHistory)
  {
    LaidIsWhole(g, Rows(t), Current(t), From(g, t), t.pen);
    LinesAreLast(t, maxHistory);
    SuffixWhole(g, Rows(t), Lines(t, maxHistory));
  }

  /** Whatever is printed line by line, and however much of it scrolls away, the terminal is whole */
  lemma {:induction false} PrintingLeavesWhole(g: Geometry, ops: seq<Op>, maxHistory: nat)
    requires ValidGeometry(g) && Flows(g, ops)
    ensures Whole(g, DoAll(g, Fresh(g), ops), maxHistory)
  {
    FreshSound(g);
    FlowSound(g, Fresh(g), ops);
    SoundIsWhole(g, DoAll(g, Fresh(g), ops), maxHistory);
  }

  // ----- what a snapshot prints

  lemma {:induction false} FlowsAppend(g: Geometry, a: seq<Op>, b: seq<Op>)
    requires Flows(g, a) && Flows(g, b)
    ensures Flows(g, a + b)
    decreases |a|
  {
    if a == [] {
      assert a + b == b;
    } else if Inline(g, a[0]) {
      assert (a + b)[1..] == a[1..] + b;
      FlowsAppend(g, a[1..], b);
    } else {
      assert (a + b)[2..] == a[2..] + b;
      FlowsAppend(g, a[2..], b);
    }
  }

  lemma {:induction false} InlineFlows(g: Geometry, ops: seq<Op>)
    requires forall op :: op in ops ==> Inline(g, op)
    ensures Flows(g, ops)
  {
    if ops != [] {
      assert ops[0] in ops;
      InlineFlows(g, ops[1..]);
    }
  }

  lemma {:induction false} MarksFlow(g: Geometry, marks: string)
    requires forall m :: m in marks ==> g.width(m) == 0 && Shows(m)
    ensures Flows(g, MarkOps(marks))
  {
    if marks != "" {
      assert marks[0] in marks && MarkOps(marks)[1..] == MarkOps(marks[1..]);
      MarksFlow(g, marks[1..]);
    }
  }

  lemma CellFlows(g: Geometry, pen: Style, row: Row, k: nat)
    requires k < |row| && WholeCell(g, row, k) && !IsSpacer(row[k])
    ensures Flows(g, CellOps(pen, row[k]))
  {
    var shown := Print(Visible(row[k].c));
    MarksFlow(g, row[k].marks);
    InlineFlows(g, PenOps(pen, row[k].style));
    InlineFlows(g, [shown]);
    FlowsAppend(g, PenOps(pen, row[k].style), [shown]);
    FlowsAppend(g, PenOps(pen, row[k].style) + [shown], MarkOps(row[k].marks));
  }

  lemma {:induction false} RowFlows(g: Geometry, pen: Style, row: Row, from: nat, end: nat)
    requires end <= |row| && forall j :: 0 <= j < |row| ==> WholeCell(g, row, j)
    ensures Flows(g, RowOps(pen, row, from, end))
    decreases |row| - from
  {
    if from < end {
      assert WholeCell(g, row, from);
      if IsSpacer(row[from]) {
        RowFlows(g, pen, row, from + 1, end);
      } else {
        CellFlows(g, pen, row, from);
        RowFlows(g, row[from].style, row, from + 1, end);
        FlowsAppend(g, CellOps(pen, row[from]), RowOps(row[from].style, row, from + 1, end));
      }
    }
  }

  lemma BreakFlows(g: Geometry, lines: seq<Row>, i: nat, pen: Style)
    requires i < |lines|
    ensures Flows(g, BeforeOps(lines, i, pen))
  {
    assert NEW_LINE[2..] == [];
    InlineFlows(g, RESET);
    FlowsAppend(g, RESET, NEW_LINE);
    assert [] + NEW_LINE == NEW_LINE;
  }

  lemma {:induction false} LinesFlow(g: Geometry, lines: seq<Row>, i: nat, pen: Style)
    requires WholeRows(g, lines) && i <= |lines|
    ensures Flows(g, LinesOps(lines, i, pen))
    decreases |lines| - i
  {
    if i == |lines| {
      InlineFlows(g, RESET);
    } else {
      var pen1 := PenBefore(lines, i, pen);
      var before, row := BeforeOps(lines, i, pen), RowOps(pen1, lines[i], 0, End(lines[i]));
      var pen2 := RowPen(pen1, lines[i], 0, End(lines[i]));
      BreakFlows(g, lines, i, pen);
      RowFlows(g, pen1, lines[i], 0, End(lines[i]));
      LinesFlow(g, lines, i + 1, pen2);
      FlowsAppend(g, before, row);
      FlowsAppend(g, before + row, LinesOps(lines, i + 1, pen2));
    }
  }

  lemma {:induction false} LinesEndClean(g: Geometry, t: Term, lines: seq<Row>, i: nat, pen: Style)
    requires Valid(g, t) && i <= |lines|
    ensures DoAll(g, t, LinesOps(lines, i, pen)).pen == DEFAULT
    decreases |lines| - i
  {
    if i == |lines| {
      ReadReset(t.pen);
      assert RESET[1..] == [];
    } else {
      var pen1 := PenBefore(lines, i, pen);
      var ops := BeforeOps(lines, i, pen) + RowOps(pen1, lines[i], 0, End(lines[i]));
      var pen2 := RowPen(pen1, lines[i], 0, End(lines[i]));
      DoAllAppend(g, t, ops, LinesOps(lines, i + 1, pen2));
      LinesEndClean(g, DoAll(g, t, ops), lines, i + 1, pen2);
    }
  }

  /** Rewriting the last cell of the cursor's row takes no wide character away */
  lemma RewriteKeepsLed(g: Geometry, history: seq<Row>, screen: seq<Row>, line: nat, cell: Cell)
    requires g.cols >= 2 && Rectangular(g, history + screen) && SpacersLead(g, history + screen)
    requires line < |screen| && |screen[line]| == g.cols && !IsSpacer(cell)
    ensures var lines := history + screen[line := screen[line][g.cols - 1 := cell]];
      Rectangular(g, lines) && SpacersLead(g, lines)
  {
    var lines, at := history + screen, |history| + line;
    assert lines[at] == screen[line];
    assert history + screen[line := screen[line][g.cols - 1 := cell]] == lines[at := lines[at][g.cols - 1 := cell]];
    LastPutKeepsLed(g, lines, at, cell);
  }

  lemma LastPutKeepsLed(g: Geometry, lines: seq<Row>, at: nat, cell: Cell)
    requires g.cols >= 2 && Rectangular(g, lines) && SpacersLead(g, lines) && at < |lines| && !IsSpacer(cell)
    ensures var lines' := lines[at := lines[at][g.cols - 1 := cell]];
      Rectangular(g, lines') && SpacersLead(g, lines')
  {
    var lines': seq<Row> := lines[at := lines[at][g.cols - 1 := cell]];
    forall i | 0 <= i < |lines'| && lines'[i][g.cols - 1].shape.LeadingSpacer?
      ensures i + 1 < |lines'| && lines'[i + 1][0] == lines[i + 1][0] && lines'[i] == lines[i]
    {
      assert i != at && lines[i][g.cols - 1].shape.LeadingSpacer?;
    }
  }

  ghost predicate Led(g: Geometry, lines: seq<Row>) {
    g.cols >= 2 && Rectangular(g, lines) && SpacersLead(g, lines)
  }

  lemma {:induction false} GridLeavesLed(g: Geometry, lines: seq<Row>)
    requires ValidGeometry(g) && WholeRows(g, lines)
    ensures var u := DoAll(g, Fresh(g), LinesOps(lines, 0, DEFAULT));
      Led(g, Rows(u)) && u.pen == DEFAULT
  {
    var u := DoAll(g, Fresh(g), LinesOps(lines, 0, DEFAULT));
    LinesFlow(g, lines, 0, DEFAULT);
    FreshSound(g);
    FlowSound(g, Fresh(g), LinesOps(lines, 0, DEFAULT));
    LaidIsWhole(g, Rows(u), Current(u), From(g, u), u.pen);
    LinesEndClean(g, Fresh(g), lines, 0, DEFAULT);
  }

  lemma {:induction false} CursorLeavesLed(g: Geometry, t: Term, maxHistory: nat, u: Term)
    requires CellsWhole(g, t, maxHistory) && Valid(g, u) && u.pen == DEFAULT && Led(g, Rows(u))
    ensures Led(g, Rows(DoAll(g, u, CursorOps(g, t))))
  {
    CursorRun(g, t, u, maxHistory);
    if t.wrapNext && !IsSpacer(LastCell(g, t)) {
      RewriteKeepsLed(g, u.history, u.screen, t.line, ShownCell(LastCell(g, t)));
    }
  }

  /** Whatever a snapshot was taken of, what it brings back has its wide characters behind the spacers at the edge */
  lemma {:induction false} SnapshotLeavesLed(g: Geometry, t: Term, maxHistory: nat, any: Term)
    requires CellsWhole(g, t, maxHistory) && Valid(g, any)
    ensures Led(g, Rows(DoAll(g, any, SnapshotOps(g, t, maxHistory))))
  {
    var ops := LinesOps(Lines(t, maxHistory), 0, DEFAULT);
    ThreeParts(g, any, ops, CursorOps(g, t));
    GridLeavesLed(g, Lines(t, maxHistory));
    CursorLeavesLed(g, t, maxHistory, DoAll(g, Fresh(g), ops));
  }
}
