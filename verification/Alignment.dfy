/** On a grid whose spacers at the edge have kept their wide characters every row is written on a row of its own. */
module Alignment {
  import opened Sgr
  import opened Screen
  import opened Snapshot
  import opened Replay

  /** How far a row is written: a spacer at the edge is left for the wide character after it */
  function Stop(row: Row, end: nat): (n: nat)
    requires end <= |row|
    ensures n <= |row|
  {
    if end == |row| && end > 0 && row[end - 1].shape.LeadingSpacer? then end - 1 else end
  }

  /** The sheet once row `i` is written: the rows above as they come back, and this one still open, since the row below
      may yet make it wrap */
  function Aligned(g: Geometry, lines: seq<Row>, i: nat): Sheet
    requires i < |lines|
  {
    var stop := Stop(lines[i], End(lines[i]));
    Sheet(Images(g, lines, i), Painted(lines[i], stop, Fill(g, lines, i)), stop)
  }

  // ----- one row

  lemma InkedPainted(g: Geometry, row: Row, fill: Cell, k: nat)
    requires g.cols >= 2 && |row| == g.cols && k < g.cols && WholeCell(g, row, k) && !IsSpacer(row[k])
    ensures k + Step(row[k]) <= g.cols
    ensures Inked(g, Painted(row, k, fill), k, row[k]) == Painted(row, k + Step(row[k]), fill)
  {}

  lemma {:induction false} InkRowAligned(g: Geometry, rows: seq<Row>, row: Row, fill: Cell, k: nat, end: nat)
    requires g.cols >= 2 && WholeAll(g, row) && k <= end <= g.cols && (k == end ==> Stop(row, end) == end)
    requires (k < end ==> !row[k].shape.Spacer?) && (end < g.cols ==> !row[end].shape.Spacer?)
    ensures InkRow(g, Sheet(rows, Painted(row, k, fill), k), row, k, end)
            == Sheet(rows, Painted(row, Stop(row, end), fill), Stop(row, end))
    decreases end - k
  {
    if k < end {
      assert WholeCell(g, row, k);
      if !IsSpacer(row[k]) {
        var next := k + Step(row[k]);
        InkedPainted(g, row, fill, k);
        RowUnfold(g, row, k, end, DEFAULT);
        RowStarts(g, row, k);
        assert WholeCell(g, row, next - 1);
        InkRowAligned(g, rows, row, fill, next, end);
      }
    }
  }

  lemma {:induction false} RowAligned(g: Geometry, lines: seq<Row>, i: nat)
    requires WholeRows(g, lines) && i < |lines|
    ensures InkRow(g, Sheet(Images(g, lines, i), Filled(g, Fill(g, lines, i)), 0), lines[i], 0, End(lines[i]))
            == Aligned(g, lines, i)
  {
    var row, fill := lines[i], Fill(g, lines, i);
    RowOfGrid(g, lines, i);
    EndUsed(g, row);
    assert Painted(row, 0, fill) == Filled(g, fill);
    InkRowAligned(g, Images(g, lines, i), row, fill, 0, End(row));
  }

  // ----- from one row to the next

  lemma ImagesSnoc(g: Geometry, lines: seq<Row>, i: nat)
    requires i < |lines|
    ensures Images(g, lines, i) + [Image(g, lines, i)] == Images(g, lines, i + 1)
  {}

  lemma NoSpacerLeft(g: Geometry, lines: seq<Row>, i: nat)
    requires WholeLines(g, lines) && i < |lines| && (i + 1 < |lines| ==> !Joined(lines, i + 1))
    ensures !lines[i][g.cols - 1].shape.LeadingSpacer?
  {
    assert WholeCell(g, lines[i], g.cols - 1);
    if i + 1 < |lines| {
      RowOfGrid(g, lines, i + 1);
      EndUsed(g, lines[i + 1]);
    }
  }

  lemma NoWrapSet(row: Row)
    requires row != [] && !row[|row| - 1].wrap
    ensures SetWrap(row, false) == row
  {}

  /** A row that the next one does not join comes back as it was written */
  lemma ImageDone(g: Geometry, lines: seq<Row>, i: nat)
    requires WholeLines(g, lines) && i < |lines| && (i + 1 < |lines| ==> !Joined(lines, i + 1))
    ensures Images(g, lines, i) + [Aligned(g, lines, i).row] == Images(g, lines, i + 1)
  {
    var row := lines[i];
    NoSpacerLeft(g, lines, i);
    NoWrapSet(Painted(row, End(row), Fill(g, lines, i)));
    ImagesSnoc(g, lines, i);
  }

  /** A row that wraps comes back whole, its last cell being a spacer for the wide character below or not */
  lemma WrappedPainted(g: Geometry, row: Row, fill: Cell, pen: Style)
    requires g.cols >= 2 && |row| == g.cols && WholeCell(g, row, g.cols - 1)
    requires row[g.cols - 1].shape.LeadingSpacer? ==> pen == Readable(row[g.cols - 1].style)
    ensures WrappedRow(g, Painted(row, Stop(row, g.cols), fill), Stop(row, g.cols), pen)
            == SetWrap(Painted(row, g.cols, fill), true)
  {
    if row[g.cols - 1].shape.LeadingSpacer? {
      assert Painted(row, g.cols - 1, fill)[g.cols - 1 := ShownCell(row[g.cols - 1])] == Painted(row, g.cols, fill);
    }
  }

  /** A joined row's first cell has no space behind the row above it */
  lemma JoinedStop(g: Geometry, lines: seq<Row>, i: nat)
    requires WholeLines(g, lines) && i + 1 < |lines| && Joined(lines, i + 1)
    ensures End(lines[i]) == g.cols && !HasSpace(g, Aligned(g, lines, i), lines[i + 1][0])
    ensures lines[i][g.cols - 1].shape.LeadingSpacer? ==> lines[i + 1][0].style == lines[i][g.cols - 1].style
    ensures Image(g, lines, i) == SetWrap(Painted(lines[i], g.cols, Fill(g, lines, i)), true)
  {}

  lemma JoinedStart(g: Geometry, lines: seq<Row>, i: nat)
    requires WholeLines(g, lines) && i + 1 < |lines| && Joined(lines, i + 1)
    ensures NextRow(g, Aligned(g, lines, i), lines[i + 1][0].style)
            == Sheet(Images(g, lines, i + 1), Filled(g, Fill(g, lines, i + 1)), 0)
  {
    JoinedStop(g, lines, i);
    assert WholeCell(g, lines[i], g.cols - 1);
    WrappedPainted(g, lines[i], Fill(g, lines, i), Readable(lines[i + 1][0].style));
    ImagesSnoc(g, lines, i);
  }

  /** A row whose first cell has no space goes on the next row altogether */
  lemma {:induction false} InkRowBelow(g: Geometry, sh: Sheet, row: Row, end: nat)
    requires ValidSheet(g, sh) && 0 < end <= |row| == g.cols && !IsSpacer(row[0]) && !HasSpace(g, sh, row[0])
    ensures InkRow(g, sh, row, 0, end) == InkRow(g, NextRow(g, sh, row[0].style), row, 0, end)
  {
    var next := NextRow(g, sh, row[0].style);
    assert Ink(g, sh, row[0]) == Ink(g, next, row[0]);
  }

  lemma {:induction false} StepAligned(g: Geometry, lines: seq<Row>, i: nat)
    requires WholeLines(g, lines) && i + 1 < |lines|
    ensures InkRow(g, StartSheet(g, Aligned(g, lines, i), lines, i + 1), lines[i + 1], 0, End(lines[i + 1]))
            == Aligned(g, lines, i + 1)
  {
    RowAligned(g, lines, i + 1);
    if Joined(lines, i + 1) {
      RowOfGrid(g, lines, i + 1);
      EndUsed(g, lines[i + 1]);
      JoinedStop(g, lines, i);
      JoinedStart(g, lines, i);
      InkRowBelow(g, Aligned(g, lines, i), lines[i + 1], End(lines[i + 1]));
    } else {
      ImageDone(g, lines, i);
    }
  }

  // ----- the whole grid

  lemma {:induction false} FirstAligned(g: Geometry, lines: seq<Row>)
    requires WholeLines(g, lines) && lines != []
    ensures SheetAt(g, lines, 1) == Aligned(g, lines, 0)
  {
    RowAligned(g, lines, 0);
  }

  lemma {:induction false} SheetAligned(g: Geometry, lines: seq<Row>)
    requires WholeLines(g, lines) && lines != []
    ensures SheetAt(g, lines, |lines|) == Aligned(g, lines, |lines| - 1)
  {
    FirstAligned(g, lines);
    for i := 1 to |lines|
      invariant SheetAt(g, lines, i) == Aligned(g, lines, i - 1)
    {
      StepAligned(g, lines, i - 1);
    }
  }

  /** On such a grid every row comes back on its own row, as `Image` has it */
  lemma ReflowAligned(g: Geometry, lines: seq<Row>)
    requires WholeLines(g, lines) && lines != []
    ensures Reflow(g, lines).rows + [Reflow(g, lines).row] == Images(g, lines, |lines|)
  {
    SheetAligned(g, lines);
    ImageDone(g, lines, |lines| - 1);
  }
}
