/** Where every cell of a grid lands when its snapshot is replayed: none is lost or overwritten, they keep their order,
    and none moves down. */
module Landing {
  import opened Sgr
  import opened Screen
  import opened Snapshot
  import opened Replay

  datatype Spot = Spot(row: nat, col: nat)

  function RowOf(sh: Sheet, i: nat): Row
    requires i <= |sh.rows|
  {
    if i < |sh.rows| then sh.rows[i] else sh.row
  }

  /** The row holds a cell at a column, whether it wraps behind it or not, and its spacer behind it when it is wide */
  predicate Holds(row: Row, col: nat, cell: Cell) {
    && col + Step(cell) <= |row| && row[col].(wrap := false) == ShownCell(cell)
    && (Step(cell) == 2 ==> row[col + 1].(wrap := false) == Cell(' ', "", Readable(cell.style), Spacer, false))
  }

  predicate Shown(sh: Sheet, at: Spot, cell: Cell) {
    && at.row <= |sh.rows| && (at.row == |sh.rows| ==> at.col + Step(cell) <= sh.k)
    && Holds(RowOf(sh, at.row), at.col, cell)
  }

  /** Where the next cell goes */
  function Next(g: Geometry, sh: Sheet, cell: Cell): Spot {
    if HasSpace(g, sh, cell) then Spot(|sh.rows|, sh.k) else Spot(|sh.rows| + 1, 0)
  }

  /** The sheet that is written when the cell at (i, j) comes */
  function Before(g: Geometry, lines: seq<Row>, i: nat, j: nat): (r: Sheet)
    requires g.cols >= 2 && i < |lines| && j <= |lines[i]|
    ensures ValidSheet(g, r)
  {
    InkRow(g, StartSheet(g, SheetAt(g, lines, i), lines, i), lines[i], 0, j)
  }

  function Landed(g: Geometry, lines: seq<Row>, i: nat, j: nat): Spot
    requires g.cols >= 2 && i < |lines| && j < |lines[i]|
  {
    Next(g, Before(g, lines, i, j), lines[i][j])
  }

  /** A cell that is printed */
  predicate Prints(lines: seq<Row>, i: nat, j: nat) {
    i < |lines| && j < End(lines[i]) && !IsSpacer(lines[i][j])
  }

  // ----- what is written stays

  lemma InkKeeps(g: Geometry, sh: Sheet, next: Cell, at: Spot, cell: Cell)
    requires ValidSheet(g, sh) && Shown(sh, at, cell)
    ensures Shown(Ink(g, sh, next), at, cell)
  {}

  lemma InkShows(g: Geometry, sh: Sheet, cell: Cell)
    requires ValidSheet(g, sh)
    ensures Shown(Ink(g, sh, cell), Next(g, sh, cell), cell)
  {}

  lemma {:induction false} InkRowKeeps(g: Geometry, sh: Sheet, row: Row, from: nat, end: nat, at: Spot, cell: Cell)
    requires ValidSheet(g, sh) && end <= |row| && Shown(sh, at, cell)
    ensures Shown(InkRow(g, sh, row, from, end), at, cell)
    decreases |row| - from
  {
    if from < end {
      if IsSpacer(row[from]) {
        InkRowKeeps(g, sh, row, from + 1, end, at, cell);
      } else {
        InkKeeps(g, sh, row[from], at, cell);
        InkRowKeeps(g, Ink(g, sh, row[from]), row, from + Step(row[from]), end, at, cell);
      }
    }
  }

  lemma {:induction false} BeforeKeeps(g: Geometry, lines: seq<Row>, i: nat, j: nat, at: Spot, cell: Cell)
    requires g.cols >= 2 && i < |lines| && j <= |lines[i]| && Shown(SheetAt(g, lines, i), at, cell)
    ensures Shown(Before(g, lines, i, j), at, cell)
  {
    InkRowKeeps(g, StartSheet(g, SheetAt(g, lines, i), lines, i), lines[i], 0, j, at, cell);
  }

  lemma {:induction false} SheetKeeps(g: Geometry, lines: seq<Row>, m: nat, n: nat, at: Spot, cell: Cell)
    requires g.cols >= 2 && m <= n <= |lines| && Shown(SheetAt(g, lines, m), at, cell)
    ensures Shown(SheetAt(g, lines, n), at, cell)
    decreases n
  {
    if m < n {
      SheetKeeps(g, lines, m, n - 1, at, cell);
      BeforeKeeps(g, lines, n - 1, End(lines[n - 1]), at, cell);
    }
  }

  lemma {:induction false} InkRowSplit(g: Geometry, sh: Sheet, row: Row, from: nat, j: nat, end: nat)
    requires ValidSheet(g, sh) && WholeAll(g, row) && from <= j < end <= g.cols && !IsSpacer(row[j])
    requires !row[from].shape.Spacer?
    ensures InkRow(g, sh, row, from, end)
            == InkRow(g, Ink(g, InkRow(g, sh, row, from, j), row[j]), row, j + Step(row[j]), end)
    decreases j - from
  {
    if from < j {
      assert WholeCell(g, row, from);
      var next := from + Step(row[from]);
      assert WholeCell(g, row, next - 1);
      RowStarts(g, row, from);
      InkRowSplit(g, Ink(g, sh, row[from]), row, next, j, end);
    }
  }

  // ----- where it lands

  /** The cell at (i, j) is written at its spot and is still there when a later stretch of its row is */
  lemma LandsInRow(g: Geometry, lines: seq<Row>, i: nat, j: nat, end: nat)
    requires WholeRows(g, lines) && Prints(lines, i, j) && j < end <= g.cols
    ensures Shown(Before(g, lines, i, end), Landed(g, lines, i, j), lines[i][j])
  {
    var row, start := lines[i], StartSheet(g, SheetAt(g, lines, i), lines, i);
    RowOfGrid(g, lines, i);
    EndUsed(g, row);
    InkRowSplit(g, start, row, 0, j, end);
    InkShows(g, Before(g, lines, i, j), row[j]);
    InkRowKeeps(g, Ink(g, Before(g, lines, i, j), row[j]), row, j + Step(row[j]), end, Landed(g, lines, i, j), row[j]);
  }

  lemma OnSheet(g: Geometry, lines: seq<Row>, i: nat, j: nat)
    requires WholeRows(g, lines) && Prints(lines, i, j)
    ensures Shown(Reflow(g, lines), Landed(g, lines, i, j), lines[i][j])
  {
    LandsInRow(g, lines, i, j, End(lines[i]));
    SheetKeeps(g, lines, i + 1, |lines|, Landed(g, lines, i, j), lines[i][j]);
  }

  lemma PaperShows(g: Geometry, sh: Sheet, at: Spot, cell: Cell)
    requires Written(g, sh) && Shown(sh, at, cell)
    ensures var u := Paper(g, sh, DEFAULT);
      at.row < |u.history + u.screen| && Holds((u.history + u.screen)[at.row], at.col, cell)
  {
    var u, tape := Paper(g, sh, DEFAULT), sh.rows + [sh.row];
    assert (u.history + u.screen)[at.row] == tape[at.row] == RowOf(sh, at.row);
  }

  /** Every cell that is printed is there in what comes back, as it was shown */
  lemma {:induction false} EveryCellLands(g: Geometry, lines: seq<Row>, i: nat, j: nat)
    requires WholeRows(g, lines) && Gridded(g, lines) && Prints(lines, i, j)
    ensures var u, at := DoAll(g, Fresh(g), LinesOps(lines, 0, DEFAULT)), Landed(g, lines, i, j);
      at.row < |u.history + u.screen| && Holds((u.history + u.screen)[at.row], at.col, lines[i][j])
  {
    OnSheet(g, lines, i, j);
    GridReplays(g, lines);
    PaperShows(g, Reflow(g, lines), Landed(g, lines, i, j), lines[i][j]);
  }

  /** A cell lands behind the one that lands at `at`, whose columns it leaves alone */
  predicate Behind(at: Spot, cell: Cell, next: Spot) {
    at.row < next.row || (at.row == next.row && at.col + Step(cell) <= next.col)
  }

  lemma NextIsBehind(g: Geometry, sh: Sheet, at: Spot, cell: Cell, next: Cell)
    requires Shown(sh, at, cell)
    ensures Behind(at, cell, Next(g, sh, next))
  {}

  lemma LandsAbove(g: Geometry, lines: seq<Row>, i: nat, j: nat, i': nat, j': nat)
    requires WholeRows(g, lines) && Prints(lines, i, j) && i < i' < |lines| && j' <= |lines[i']|
    ensures Shown(Before(g, lines, i', j'), Landed(g, lines, i, j), lines[i][j])
  {
    LandsInRow(g, lines, i, j, End(lines[i]));
    SheetKeeps(g, lines, i + 1, i', Landed(g, lines, i, j), lines[i][j]);
    BeforeKeeps(g, lines, i', j', Landed(g, lines, i, j), lines[i][j]);
  }

  /** The cells keep their order */
  lemma OrderIsKept(g: Geometry, lines: seq<Row>, i: nat, j: nat, i': nat, j': nat)
    requires WholeRows(g, lines) && Prints(lines, i, j) && Prints(lines, i', j') && (i < i' || (i == i' && j < j'))
    ensures Behind(Landed(g, lines, i, j), lines[i][j], Landed(g, lines, i', j'))
  {
    if i == i' { LandsInRow(g, lines, i, j, j'); } else { LandsAbove(g, lines, i, j, i', j'); }
    NextIsBehind(g, Before(g, lines, i', j'), Landed(g, lines, i, j), lines[i][j], lines[i'][j']);
  }

  lemma {:induction false} StartReach(g: Geometry, lines: seq<Row>, i: nat)
    requires WholeRows(g, lines) && Gridded(g, lines) && i < |lines|
    ensures var start := StartSheet(g, SheetAt(g, lines, i), lines, i); Written(g, start) && Reach(g, start, i) <= 0
  {
    if i == 0 {
      FreshIsPaper(g);
    } else {
      RowsFit(g, lines, i);
      StartRun(g, SheetAt(g, lines, i), lines, i - 1, i, DEFAULT);
    }
  }

  /** No cell lands below where it was, or behind it in its row */
  lemma NoneMovesDown(g: Geometry, lines: seq<Row>, i: nat, j: nat)
    requires WholeRows(g, lines) && Gridded(g, lines) && Prints(lines, i, j)
    ensures var at := Landed(g, lines, i, j); at.row < i || (at.row == i && at.col <= j)
  {
    var start := StartSheet(g, SheetAt(g, lines, i), lines, i);
    RowOfGrid(g, lines, i);
    EndUsed(g, lines[i]);
    StartReach(g, lines, i);
    InkRowRun(g, start, lines[i], i, 0, j, DEFAULT);
    assert WholeCell(g, lines[i], j);
    InkReach(g, Before(g, lines, i, j), lines[i][j], i, j);
  }
}
