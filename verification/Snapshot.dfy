/** The screen serializer: what it prints for a grid, and what a terminal that reads it ends up with. */
module Snapshot {
  import opened Sgr
  import opened Screen

  // ----- what is printed

  /** A tab is stored in its cell as a tab and printed as a space */
  function Visible(c: char): char { if c == '\t' then ' ' else c }

  function MarkOps(marks: string): seq<Op> {
    if marks == "" then [] else [Print(marks[0])] + MarkOps(marks[1..])
  }

  function PenOps(pen: Style, style: Style): seq<Op> {
    if style == pen then [] else [Pen(Params(style))]
  }

  function CellOps(pen: Style, cell: Cell): seq<Op> {
    PenOps(pen, cell.style) + [Print(Visible(cell.c))] + MarkOps(cell.marks)
  }

  predicate IsSpacer(cell: Cell) { cell.shape.Spacer? || cell.shape.LeadingSpacer? }

  function RowOps(pen: Style, row: Row, from: nat, end: nat): seq<Op>
    requires end <= |row|
    decreases |row| - from
  {
    if from >= end then []
    else if IsSpacer(row[from]) then RowOps(pen, row, from + 1, end)
    else CellOps(pen, row[from]) + RowOps(row[from].style, row, from + 1, end)
  }

  function RowPen(pen: Style, row: Row, from: nat, end: nat): Style
    requires end <= |row|
    decreases |row| - from
  {
    if from >= end then pen
    else RowPen(if IsSpacer(row[from]) then pen else row[from].style, row, from + 1, end)
  }

  /** One past the last cell that is not a default one */
  function Used(row: Row): (n: nat)
    ensures n <= |row| && (n > 0 ==> row[n - 1] != BLANK) && forall i :: n <= i < |row| ==> row[i] == BLANK
  {
    if row == [] then 0 else if row[|row| - 1] != BLANK then |row| else Used(row[..|row| - 1])
  }

  predicate Wrapped(row: Row) { row != [] && row[|row| - 1].wrap }

  function End(row: Row): (n: nat)
    ensures n <= |row|
  {
    if Wrapped(row) then |row| else Used(row)
  }

  const NEW_LINE: seq<Op> := [Return, Feed]
  const RESET: seq<Op> := [Pen([[0]])]

  /** Between two rows: nothing when the text wraps into the row below, a new line with a clean pen
      otherwise */
  function BreakOps(pen: Style): seq<Op> {
    (if pen == DEFAULT then [] else RESET) + NEW_LINE
  }

  /** Row `i` goes on where the row above it wrapped */
  predicate Joined(lines: seq<Row>, i: nat)
    requires i < |lines|
  {
    i > 0 && Wrapped(lines[i - 1]) && End(lines[i]) > 0
  }

  function PenBefore(lines: seq<Row>, i: nat, pen: Style): Style
    requires i < |lines|
  {
    if i == 0 || Joined(lines, i) then pen else DEFAULT
  }

  function BeforeOps(lines: seq<Row>, i: nat, pen: Style): seq<Op>
    requires i < |lines|
  {
    if i == 0 || Joined(lines, i) then [] else BreakOps(pen)
  }

  function LinesOps(lines: seq<Row>, i: nat, pen: Style): seq<Op>
    requires i <= |lines|
    decreases |lines| - i
  {
    if i == |lines| then RESET else
    var pen1 := PenBefore(lines, i, pen);
    BeforeOps(lines, i, pen) + RowOps(pen1, lines[i], 0, End(lines[i]))
    + LinesOps(lines, i + 1, RowPen(pen1, lines[i], 0, End(lines[i])))
  }

  /** The scrollback lines kept and the screen */
  function Lines(t: Term, maxHistory: nat): seq<Row> {
    (if |t.history| > maxHistory then t.history[|t.history| - maxHistory..] else t.history) + t.screen
  }

  // ----- what comes back

  function ShownCell(cell: Cell): Cell {
    Cell(Visible(cell.c), cell.marks, Readable(cell.style), cell.shape, false)
  }

  /** The background a row starts out with: a row that scrolled in under a wrap takes the pen's */
  function Fill(g: Geometry, lines: seq<Row>, i: nat): Cell
    requires i < |lines|
  {
    if Joined(lines, i) && i >= g.rows && lines[i] != [] then Erased(Readable(lines[i][0].style)) else BLANK
  }

  /** The first `upto` cells of a row as they come back, over a row filled with `fill` */
  function Painted(row: Row, upto: nat, fill: Cell): (r: Row)
    ensures |r| == |row| && forall i :: 0 <= i < |row| ==> r[i] == if i < upto then ShownCell(row[i]) else fill
  {
    seq(|row|, i requires 0 <= i < |row| => if i < upto then ShownCell(row[i]) else fill)
  }

  function SetWrap(row: Row, wrap: bool): Row {
    if row == [] then row else row[|row| - 1 := row[|row| - 1].(wrap := wrap)]
  }

  function Image(g: Geometry, lines: seq<Row>, i: nat): Row
    requires i < |lines|
  {
    SetWrap(Painted(lines[i], End(lines[i]), Fill(g, lines, i)), i + 1 < |lines| && Joined(lines, i + 1))
  }

  function Images(g: Geometry, lines: seq<Row>, n: nat): (r: seq<Row>)
    requires n <= |lines|
    ensures |r| == n && forall i :: 0 <= i < n ==> r[i] == Image(g, lines, i)
  {
    seq(n, i requires 0 <= i < n => Image(g, lines, i))
  }

  // ----- the grids a terminal builds

  ghost predicate WholeCell(g: Geometry, row: Row, i: nat)
    requires i < |row|
  {
    var cell := row[i];
    && (cell.wrap ==> i == |row| - 1)
    && (forall m :: m in cell.marks ==> g.width(m) == 0 && Shows(m))
    && (cell.c == '\t' || Shows(cell.c))
    && match cell.shape
       case Narrow => g.width(Visible(cell.c)) == 1
       case Wide =>
         g.width(cell.c) == 2 && cell.c != '\t' && i + 1 < |row| &&
         row[i + 1] == Cell(' ', "", cell.style, Spacer, row[i + 1].wrap)
       case Spacer => i > 0 && row[i - 1].shape.Wide?
       case LeadingSpacer => i == |row| - 1 && cell == Cell(' ', "", cell.style, LeadingSpacer, true)
  }

  /** Full rows of such cells: a wide character is followed by its spacer */
  ghost predicate WholeRows(g: Geometry, lines: seq<Row>) {
    && g.cols >= 2 && (forall i :: 0 <= i < |lines| ==> |lines[i]| == g.cols)
    && (forall i, j :: 0 <= i < |lines| && 0 <= j < g.cols ==> WholeCell(g, lines[i], j))
  }

  /** A spacer that stands in for a wide character at the edge is followed by it on the next row */
  predicate SpacersLead(g: Geometry, lines: seq<Row>)
    requires g.cols >= 2 && forall i :: 0 <= i < |lines| ==> |lines[i]| == g.cols
  {
    forall i :: 0 <= i < |lines| && lines[i][g.cols - 1].shape.LeadingSpacer? ==>
      i + 1 < |lines| && lines[i + 1][0].shape.Wide? && lines[i + 1][0].style == lines[i][g.cols - 1].style
  }

  ghost predicate WholeLines(g: Geometry, lines: seq<Row>) {
    WholeRows(g, lines) && SpacersLead(g, lines)
  }
}
